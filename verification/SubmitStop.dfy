/** Submit, SubmitWait, SubmitSync, the worker loop and Stop, interleaved at every lock section,
    channel operation and wait-group operation (pipeline.go:167-286). */
module SubmitStop {
  import opened Wrappers

  type Rec = nat

  datatype Thread =
    // a caller of Submit, SubmitWait or SubmitSync
    | Outside
    | Inside(rec: Rec, sync: bool)      // past beginSubmit
    | SyncDone(rec: Rec)
    | Leaving(rec: Rec, ok: bool)       // result decided, submitWG.Done still to run
    // a worker goroutine
    | Ready
    | Processing(rec: Rec)
    | Exited
    // a caller of Stop
    | StopIdle
    | StopWaiting                       // submitClosed set, waiting for submitters
    | StopClosing                       // about to close the channel
    | StopDraining                      // waiting for the workers
    | Stopped(first: bool)              // returned; `first` is the call that shut the pipeline down

  /** `starting` holds the recovery records Start has still to send.  `sent`, `processed`, `reported`
      and `early` are history variables; `early` records that the channel was closed while Start
      was still sending. */
  datatype State = State(threads: seq<Thread>, submitClosed: bool, submitWG: int, buffer: seq<Rec>, capacity: nat,
                         closed: bool, workers: int, starting: seq<Rec>, panicked: bool, early: bool,
                         sent: set<Rec>, processed: set<Rec>, reported: set<Rec>)

  datatype Label =
    | Begin(t: nat, rec: Rec, sync: bool) | Send(t: nat) | Reject(t: nat) | Sync(t: nat) | Leave(t: nat)
    | Receive(t: nat) | Finish(t: nat) | Exit(t: nat)
    | StopBegin(t: nat) | StopWaited(t: nat) | StopClose(t: nat) | StopReturn(t: nat)
    | StartSend

  function Put(s: State, t: nat, th: Thread): State
    requires t < |s.threads|
  {
    s.(threads := s.threads[t := th])
  }

  /** Sending on a closed channel panics, as does closing it twice. */
  function SendOn(s: State, rec: Rec): State
  {
    if s.closed then s.(panicked := true) else s.(buffer := s.buffer + [rec], sent := s.sent + {rec})
  }

  function CallerStep(s: State, l: Label): Option<State>
    requires (l.Begin? || l.Send? || l.Reject? || l.Sync? || l.Leave?) && l.t < |s.threads|
  {
    match s.threads[l.t]
    case Outside =>
      if !l.Begin? then None
      else if s.submitClosed then Some(s)
      else Some(Put(s, l.t, Inside(l.rec, l.sync)).(submitWG := s.submitWG + 1))
    case Inside(rec, sync) =>
      if l.Send? && !sync && (|s.buffer| < s.capacity ||
        s.closed) then Some(Put(SendOn(s, rec), l.t, Leaving(rec, true)))
      else if l.Reject? && !sync then Some(Put(s, l.t, Leaving(rec, false)))
      else if l.Sync? && sync then Some(Put(s, l.t, SyncDone(rec)).(processed := s.processed + {rec}))
      else None
    case SyncDone(rec) => if l.Leave? then Some(Put(s, l.t, Leaving(rec, true))) else None
    case Leaving(rec, ok) =>
      if l.Leave? then
        Some(Put(s, l.t, Outside).(submitWG := s.submitWG - 1, reported := s.reported + if ok then {rec} else {}))
      else None
    case _ => None
  }

  function WorkerStep(s: State, l: Label): Option<State>
    requires (l.Receive? || l.Finish? || l.Exit?) && l.t < |s.threads|
  {
    match s.threads[l.t]
    case Ready =>
      if l.Receive? && s.buffer != [] then Some(Put(s, l.t, Processing(s.buffer[0])).(buffer := s.buffer[1..]))
      else if l.Exit? && s.closed && s.buffer == [] then Some(Put(s, l.t, Exited).(workers := s.workers - 1))
      else None
    case Processing(rec) => if l.Finish? then Some(Put(s, l.t, Ready).(processed := s.processed + {rec})) else None
    case _ => None
  }

  function StopStep(s: State, l: Label): Option<State>
    requires (l.StopBegin? || l.StopWaited? || l.StopClose? || l.StopReturn?) && l.t < |s.threads|
  {
    match s.threads[l.t]
    case StopIdle =>
      if !l.StopBegin? then None
      else if s.submitClosed then Some(Put(s, l.t, Stopped(false)))
      else Some(Put(s, l.t, StopWaiting).(submitClosed := true))
    case StopWaiting => if l.StopWaited? && s.submitWG == 0 then Some(Put(s, l.t, StopClosing)) else None
    case StopClosing =>
      if !l.StopClose? then None
      else Some(Put(s, l.t, StopDraining).(closed := true, panicked := s.panicked || s.closed,
                                           early := s.early || s.starting != []))
    case StopDraining => if l.StopReturn? && s.workers == 0 then Some(Put(s, l.t, Stopped(true))) else None
    case _ => None
  }

  function Step(s: State, l: Label): Option<State>
  {
    if l.StartSend? then
      if s.starting != [] && (|s.buffer| < s.capacity || s.closed) then
        Some(SendOn(s, s.starting[0]).(starting := s.starting[1..]))
      else None
    else if l.t >= |s.threads| then None
    else if l.Begin? || l.Send? || l.Reject? || l.Sync? || l.Leave? then CallerStep(s, l)
    else if l.Receive? || l.Finish? || l.Exit? then WorkerStep(s, l)
    else StopStep(s, l)
  }

  // ----- counting threads

  function InsideOf(th: Thread): int { if th.Inside? || th.SyncDone? || th.Leaving? then 1 else 0 }

  function WorkerOf(th: Thread): int { if th.Ready? || th.Processing? then 1 else 0 }

  function StopperOf(th: Thread): int
  {
    if th.StopWaiting? || th.StopClosing? || th.StopDraining? || th == Stopped(true) then 1 else 0
  }

  function Count(f: Thread -> int, threads: seq<Thread>): int
  {
    if threads == [] then 0 else f(threads[0]) + Count(f, threads[1..])
  }

  lemma {:induction false} CountPut(f: Thread -> int, threads: seq<Thread>, t: nat, th: Thread)
    requires t < |threads|
    ensures Count(f, threads[t := th]) == Count(f, threads) - f(threads[t]) + f(th)
  {
    if t == 0 {
      assert threads[0 := th][1..] == threads[1..];
    } else {
      assert threads[t := th][1..] == threads[1..][t - 1 := th];
      CountPut(f, threads[1..], t - 1, th);
    }
  }

  lemma {:induction false} CountZero(f: Thread -> int, threads: seq<Thread>, t: nat)
    requires (forall th :: f(th) >= 0) && t < |threads|
    ensures Count(f, threads) >= f(threads[t])
  {
    CountNat(f, threads[1..]);
    if t > 0 { CountZero(f, threads[1..], t - 1); }
  }

  lemma {:induction false} CountNat(f: Thread -> int, threads: seq<Thread>)
    requires forall th :: f(th) >= 0
    ensures Count(f, threads) >= 0
  {
    if threads != [] { CountNat(f, threads[1..]); }
  }

  // ----- the invariant

  /** Nothing accepted is lost: it is in the channel, with a worker, or processed. */
  ghost predicate Held(s: State, rec: Rec)
  {
    rec in s.buffer || rec in s.processed || exists t :: 0 <= t < |s.threads| && s.threads[t] == Processing(rec)
  }

  ghost predicate Conserved(s: State)
  {
    && (forall rec :: rec in s.sent ==> Held(s, rec))
    && (forall rec :: rec in s.reported ==> rec in s.sent || rec in s.processed)
  }

  ghost predicate ThreadOk(s: State, th: Thread)
  {
    match th
    case SyncDone(rec) => rec in s.processed
    case Leaving(rec, ok) => ok ==> rec in s.sent || rec in s.processed
    case Exited => s.closed && s.buffer == []
    case StopWaiting => s.submitClosed && !s.closed
    case StopClosing => s.submitClosed && !s.closed && s.submitWG == 0
    case StopDraining => s.closed
    case Stopped(first) => first ==> s.closed && s.workers == 0
    case _ => true
  }

  ghost predicate ThreadsOk(s: State) { forall t :: 0 <= t < |s.threads| ==> ThreadOk(s, s.threads[t]) }

  ghost predicate HasWorker(threads: seq<Thread>)
  {
    exists t :: 0 <= t < |threads| && (threads[t].Ready? || threads[t].Processing? || threads[t].Exited?)
  }

  ghost predicate CountsOk(s: State)
  {
    && s.submitWG == Count(InsideOf, s.threads)
    && s.workers == Count(WorkerOf, s.threads)
    && Count(StopperOf, s.threads) == (if s.submitClosed then 1 else 0)
  }

  ghost predicate Inv(s: State)
  {
    && CountsOk(s) && ThreadsOk(s) && HasWorker(s.threads)
    && (s.closed ==> s.submitClosed && s.submitWG == 0)
    && (!s.panicked ==> Conserved(s))
    && (s.panicked ==> s.early)
    && (s.starting != [] && s.closed ==> s.early)
  }

  lemma CountsPut(s: State, t: nat, th: Thread)
    requires CountsOk(s) && t < |s.threads|
    ensures Count(InsideOf, s.threads[t := th]) == s.submitWG - InsideOf(s.threads[t]) + InsideOf(th)
    ensures Count(WorkerOf, s.threads[t := th]) == s.workers - WorkerOf(s.threads[t]) + WorkerOf(th)
    ensures Count(StopperOf, s.threads[t := th]) ==
      (if s.submitClosed then 1 else 0) - StopperOf(s.threads[t]) + StopperOf(th)
  {
    CountPut(InsideOf, s.threads, t, th);
    CountPut(WorkerOf, s.threads, t, th);
    CountPut(StopperOf, s.threads, t, th);
  }

  /** While a submitter is inside, the channel is open. */
  lemma InsideMeansOpen(s: State, t: nat)
    requires Inv(s) && t < |s.threads| && InsideOf(s.threads[t]) == 1
    ensures !s.closed && s.submitWG > 0
  {
    CountZero(InsideOf, s.threads, t);
  }

  lemma HeldAfter(s: State, s': State, t: nat, th: Thread, rec: Rec)
    requires Held(s, rec) && t < |s.threads| && s'.threads == s.threads[t := th]
    requires forall r :: r in s.buffer ==> r in s'.buffer || th == Processing(r)
    requires s.processed <= s'.processed
    requires s.threads[t].Processing? ==> s.threads[t].rec in s'.processed || th == s.threads[t]
    ensures Held(s', rec)
  {
    if rec in s.buffer && th == Processing(rec) { assert s'.threads[t] == Processing(rec); }
    else if rec !in s.buffer && rec !in s.processed {
      var j :| 0 <= j < |s.threads| && s.threads[j] == Processing(rec);
      if j != t { assert s'.threads[j] == Processing(rec); }
      else if rec !in s'.processed { assert s'.threads[t] == Processing(rec); }
    }
  }

  lemma ConservedAfter(s: State, s': State, t: nat, th: Thread)
    requires Conserved(s) && t < |s.threads| && s'.threads == s.threads[t := th]
    requires forall r :: r in s.buffer ==> r in s'.buffer || th == Processing(r)
    requires s.processed <= s'.processed && s.sent <= s'.sent
    requires forall r :: r in s'.sent && r !in s.sent ==> r in s'.buffer
    requires s.threads[t].Processing? ==> s.threads[t].rec in s'.processed || th == s.threads[t]
    requires forall r :: r in s'.reported && r !in s.reported ==> r in s'.sent || r in s'.processed
    ensures Conserved(s')
  {
    forall rec | rec in s'.sent ensures Held(s', rec) {
      if rec in s.sent { HeldAfter(s, s', t, th, rec); }
    }
  }

  lemma HasWorkerPut(threads: seq<Thread>, t: nat, th: Thread)
    requires HasWorker(threads) && t < |threads|
    requires (threads[t].Ready? || threads[t].Processing? || threads[t].Exited?) ==>
      th.Ready? || th.Processing? || th.Exited?
    ensures HasWorker(threads[t := th])
  {
    var j :| 0 <= j < |threads| && (threads[j].Ready? || threads[j].Processing? || threads[j].Exited?);
    assert threads[t := th][j] == if j == t then th else threads[j];
  }

  lemma BeginKeeps(s: State, l: Label, s': State)
    requires Inv(s) && l.Begin? && Step(s, l) == Some(s')
    ensures Inv(s')
  {
    if !s.submitClosed {
      var th := Inside(l.rec, l.sync);
      CountsPut(s, l.t, th);
      HasWorkerPut(s.threads, l.t, th);
      forall t | 0 <= t < |s'.threads| ensures ThreadOk(s', s'.threads[t]) {
      assert t != l.t ==> ThreadOk(s, s.threads[t]);
    }
      if !s.panicked { ConservedAfter(s, s', l.t, th); }
    }
  }

  lemma SendKeeps(s: State, l: Label, s': State)
    requires Inv(s) && l.Send? && Step(s, l) == Some(s')
    ensures Inv(s')
  {
    var th := Leaving(s.threads[l.t].rec, true);
    InsideMeansOpen(s, l.t);
    CountsPut(s, l.t, th);
    HasWorkerPut(s.threads, l.t, th);
    forall t | 0 <= t < |s'.threads| ensures ThreadOk(s', s'.threads[t]) {
      assert t != l.t ==> ThreadOk(s, s.threads[t]);
    }
    if !s.panicked { ConservedAfter(s, s', l.t, th); }
  }

  lemma RejectKeeps(s: State, l: Label, s': State)
    requires Inv(s) && (l.Reject? || l.Sync?) && Step(s, l) == Some(s')
    ensures Inv(s')
  {
    hide WorkerStep, StopStep, Count;
    var th := s'.threads[l.t];
    CountsPut(s, l.t, th);
    HasWorkerPut(s.threads, l.t, th);
    forall t | 0 <= t < |s'.threads| ensures ThreadOk(s', s'.threads[t]) {
      assert t != l.t ==> ThreadOk(s, s.threads[t]);
    }
    if !s.panicked { ConservedAfter(s, s', l.t, th); }
  }

  lemma LeaveKeeps(s: State, l: Label, s': State)
    requires Inv(s) && l.Leave? && Step(s, l) == Some(s')
    ensures Inv(s')
  {
    hide WorkerStep, StopStep, Count;
    var th := s'.threads[l.t];
    assert ThreadOk(s, s.threads[l.t]);
    InsideMeansOpen(s, l.t);
    CountsPut(s, l.t, th);
    HasWorkerPut(s.threads, l.t, th);
    forall t | 0 <= t < |s'.threads| ensures ThreadOk(s', s'.threads[t]) {
      assert t != l.t ==> ThreadOk(s, s.threads[t]);
    }
    if !s.panicked { ConservedAfter(s, s', l.t, th); }
  }

  lemma ReceiveKeeps(s: State, l: Label, s': State)
    requires Inv(s) && (l.Receive? || l.Finish?) && Step(s, l) == Some(s')
    ensures Inv(s')
  {
    hide CallerStep, StopStep, Count;
    var th := s'.threads[l.t];
    CountsPut(s, l.t, th);
    HasWorkerPut(s.threads, l.t, th);
    forall t | 0 <= t < |s'.threads| ensures ThreadOk(s', s'.threads[t]) {
      assert t != l.t ==> ThreadOk(s, s.threads[t]);
    }
    if !s.panicked { ConservedAfter(s, s', l.t, th); }
  }

  lemma ExitKeeps(s: State, l: Label, s': State)
    requires Inv(s) && l.Exit? && Step(s, l) == Some(s')
    ensures Inv(s')
  {
    CountsPut(s, l.t, Exited);
    CountZero(WorkerOf, s.threads, l.t);
    HasWorkerPut(s.threads, l.t, Exited);
    forall t | 0 <= t < |s'.threads| ensures ThreadOk(s', s'.threads[t]) {
      assert t != l.t ==> ThreadOk(s, s.threads[t]);
    }
    if !s.panicked { ConservedAfter(s, s', l.t, Exited); }
  }

  lemma OneStopper(s: State, t: nat, t': nat)
    requires CountsOk(s) && t < t' < |s.threads| && StopperOf(s.threads[t]) == 1
    ensures StopperOf(s.threads[t']) == 0
  {
    CountsPut(s, t, Outside);
    CountZero(StopperOf, s.threads[t := Outside], t');
  }

  /** No other thread is shutting the pipeline down. */
  lemma OnlyStopper(s: State, t: nat, t': nat)
    requires Inv(s) && t < |s.threads| && t' < |s.threads| && t != t'
    requires StopperOf(s.threads[t]) == 1 || !s.submitClosed
    ensures StopperOf(s.threads[t']) == 0
  {
    if StopperOf(s.threads[t]) == 1 {
      if t < t' { OneStopper(s, t, t'); } else if StopperOf(s.threads[t']) == 1 { OneStopper(s, t', t); }
    } else {
      CountZero(StopperOf, s.threads, t');
    }
  }

  lemma StopBeginKeeps(s: State, l: Label, s': State)
    requires Inv(s) && l.StopBegin? && Step(s, l) == Some(s')
    ensures Inv(s')
  {
    var th := s'.threads[l.t];
    CountsPut(s, l.t, th);
    HasWorkerPut(s.threads, l.t, th);
    forall t | 0 <= t < |s'.threads| ensures ThreadOk(s', s'.threads[t]) {
      assert t != l.t ==> ThreadOk(s, s.threads[t]);
    }
    if !s.panicked { ConservedAfter(s, s', l.t, th); }
  }

  lemma StopWaitKeeps(s: State, l: Label, s': State)
    requires Inv(s) && (l.StopWaited? || l.StopReturn?) && Step(s, l) == Some(s')
    ensures Inv(s')
  {
    var th := s'.threads[l.t];
    assert ThreadOk(s, s.threads[l.t]);
    CountsPut(s, l.t, th);
    HasWorkerPut(s.threads, l.t, th);
    forall t | 0 <= t < |s'.threads| ensures ThreadOk(s', s'.threads[t]) {
      assert t != l.t ==> ThreadOk(s, s.threads[t]);
    }
    if !s.panicked { ConservedAfter(s, s', l.t, th); }
  }

  lemma StopCloseKeeps(s: State, l: Label, s': State)
    requires Inv(s) && l.StopClose? && Step(s, l) == Some(s')
    ensures Inv(s')
  {
    var th := s'.threads[l.t];
    assert ThreadOk(s, s.threads[l.t]);
    CountsPut(s, l.t, th);
    HasWorkerPut(s.threads, l.t, th);
    forall t | 0 <= t < |s'.threads| ensures ThreadOk(s', s'.threads[t]) {
      if t != l.t {
        assert ThreadOk(s, s.threads[t]);
        OnlyStopper(s, l.t, t);
      }
    }
    if !s.panicked { ConservedAfter(s, s', l.t, th); }
  }

  lemma StartKeeps(s: State, l: Label, s': State)
    requires Inv(s) && l.StartSend? && Step(s, l) == Some(s')
    ensures Inv(s')
  {
    forall t | 0 <= t < |s'.threads| ensures ThreadOk(s', s'.threads[t]) { assert ThreadOk(s, s.threads[t]); }
    if !s'.panicked {
      forall rec | rec in s'.sent ensures Held(s', rec) {
        if rec in s.sent && rec !in s.buffer && rec !in s.processed {
          var j :| 0 <= j < |s.threads| && s.threads[j] == Processing(rec);
          assert s'.threads[j] == Processing(rec);
        }
      }
    }
  }

  lemma StepKeeps(s: State, l: Label, s': State)
    requires Inv(s) && Step(s, l) == Some(s')
    ensures Inv(s')
  {
    if l.StartSend? { StartKeeps(s, l, s'); }
    else if l.Begin? { BeginKeeps(s, l, s'); }
    else if l.Send? { SendKeeps(s, l, s'); }
    else if l.Reject? || l.Sync? { RejectKeeps(s, l, s'); }
    else if l.Leave? { LeaveKeeps(s, l, s'); }
    else if l.Receive? || l.Finish? { ReceiveKeeps(s, l, s'); }
    else if l.Exit? { ExitKeeps(s, l, s'); }
    else if l.StopBegin? { StopBeginKeeps(s, l, s'); }
    else if l.StopClose? { StopCloseKeeps(s, l, s'); }
    else { StopWaitKeeps(s, l, s'); }
  }

  // ----- whole runs

  /** Any number of submitters, at least one worker (New defaults to four), any number of Stop calls. */
  ghost predicate Init(s: State)
  {
    && (forall t :: 0 <= t < |s.threads| ==> s.threads[t] in {Outside, Ready, StopIdle})
    && HasWorker(s.threads) && s.workers == Count(WorkerOf, s.threads)
    && !s.submitClosed && s.submitWG == 0 && s.buffer == [] && !s.closed && !s.panicked && !s.early
    && s.sent == {} && s.processed == {} && s.reported == {}
  }

  lemma {:induction false} InitCounts(threads: seq<Thread>)
    requires forall t :: 0 <= t < |threads| ==> threads[t] in {Outside, Ready, StopIdle}
    ensures Count(InsideOf, threads) == 0 && Count(StopperOf, threads) == 0
  {
    if threads != [] { InitCounts(threads[1..]); }
  }

  ghost predicate Run(ss: seq<State>, ls: seq<Label>)
  {
    |ss| == |ls| + 1 && Init(ss[0]) && forall i :: 0 <= i < |ls| ==> Step(ss[i], ls[i]) == Some(ss[i + 1])
  }

  lemma {:induction false} RunInv(ss: seq<State>, ls: seq<Label>, i: nat)
    requires Run(ss, ls) && i < |ss|
    ensures Inv(ss[i])
  {
    if i == 0 {
      InitCounts(ss[0].threads);
    } else {
      RunInv(ss, ls, i - 1);
      StepKeeps(ss[i - 1], ls[i - 1], ss[i]);
    }
  }

  /** Channel safety: nothing is sent on the closed channel and it is not closed twice, unless it
      was closed while Start was still sending recovered records. */
  lemma NoPanic(ss: seq<State>, ls: seq<Label>, i: nat)
    requires Run(ss, ls) && i < |ss|
    ensures ss[i].panicked ==> ss[i].early
  {
    RunInv(ss, ls, i);
  }

  /** When the Stop call that shut the pipeline down has returned, no worker is running, and unless a
      send panicked every record sent or reported as accepted has been processed. */
  lemma StopDrains(ss: seq<State>, ls: seq<Label>, i: nat, t: nat)
    requires Run(ss, ls) && i < |ss| && t < |ss[i].threads| && ss[i].threads[t] == Stopped(true)
    ensures !ss[i].panicked ==> ss[i].sent <= ss[i].processed && ss[i].reported <= ss[i].processed
    ensures forall j :: 0 <= j < |ss[i].threads| ==> WorkerOf(ss[i].threads[j]) == 0 && InsideOf(ss[i].threads[j]) == 0
  {
    var s := ss[i];
    RunInv(ss, ls, i);
    assert ThreadOk(s, s.threads[t]);
    forall j | 0 <= j < |s.threads| ensures WorkerOf(s.threads[j]) == 0 && InsideOf(s.threads[j]) == 0 {
      CountZero(WorkerOf, s.threads, j);
      CountZero(InsideOf, s.threads, j);
    }
    var w :| 0 <= w < |s.threads| && (s.threads[w].Ready? || s.threads[w].Processing? || s.threads[w].Exited?);
    assert WorkerOf(s.threads[w]) == 0 && ThreadOk(s, s.threads[w]);
    if !s.panicked {
      forall rec | rec in s.sent ensures rec in s.processed {
        assert Held(s, rec);
      }
    }
  }

  /** Start's own sends are not counted by submitWG: a Stop that closes the channel while Start
      still has a recovered record to send makes that send panic. */
  lemma StopDuringStart(s: State, t: nat)
    requires t < |s.threads| && s.threads[t] == StopClosing && s.starting != []
    ensures Step(s, StopClose(t)).Some?
    ensures Step(Step(s, StopClose(t)).value, StartSend).Some?
    ensures Step(Step(s, StopClose(t)).value, StartSend).value.panicked
  {
    var s1 := Put(s, t, StopDraining).(closed := true, panicked := s.panicked || s.closed, early := true);
    assert Step(s, StopClose(t)) == Some(s1);
  }

  lemma OneWorker()
    ensures Count(WorkerOf, [Ready, StopIdle]) == 1 && HasWorker([Ready, StopIdle])
  {
    var all: seq<Thread> := [Ready, StopIdle];
    var rest: seq<Thread> := [StopIdle];
    var none: seq<Thread> := [];
    assert all[1..] == rest && rest[1..] == none;
    assert Count(WorkerOf, none) == 0;
    assert Count(WorkerOf, rest) == WorkerOf(StopIdle) + Count(WorkerOf, none);
    assert all[0].Ready?;
  }

  /** Such a run, from the start: one worker, one recovered record still to be sent, one Stop. */
  lemma PanicRun(rec: Rec, capacity: nat) returns (ss: seq<State>, ls: seq<Label>)
    ensures Run(ss, ls) && ss[0].starting == [rec] && ss[0].capacity == capacity && ss[|ls|].panicked
  {
    var s0 := State([Ready, StopIdle], false, 0, [], capacity, false, 1, [rec], false, false, {}, {}, {});
    var s1 := s0.(threads := [Ready, StopWaiting], submitClosed := true);
    var s2 := s1.(threads := [Ready, StopClosing]);
    var s3 := s2.(threads := [Ready, StopDraining], closed := true, early := true);
    var s4 := s3.(panicked := true, starting := []);
    ss, ls := [s0, s1, s2, s3, s4], [StopBegin(1), StopWaited(1), StopClose(1), StartSend];
    OneWorker();
    assert s0.threads[1 := StopWaiting] == s1.threads;
    assert s1.threads[1 := StopClosing] == s2.threads;
    assert s2.threads[1 := StopDraining] == s3.threads;
    assert [rec][1..] == [];
    assert Step(s3, StartSend) == Some(s4);
  }
}
