/** The buffered HTTP sink under EmitTo: enqueue, batch-full flush, EmitTo's own flush, the ticker's
    flush and Close, interleaved at every lock section (http.go:78-143, 215-222; dynamic.go:21-36). */
module HttpSink {
  import opened Wrappers

  datatype Event = Event(id: string, body: string)

  /** Why a goroutine is flushing. */
  datatype Purpose =
    | Full(e: Event)    // Emit filled the batch
    | Last(e: Event)    // EmitTo's flush after Emit returned nil
    | Background        // the ticker, Flush or Close

  datatype Thread =
    | Idle
    | Emitting(e: Event)
    | Wanting(why: Purpose)     // waiting for flushMu
    | Sending(why: Purpose)     // holds flushMu, its batch is `inflight`
    | Returned(e: Event, ok: bool)

  /** `accepted`, `sent` and `acked` are history variables: events appended to the buffer, events
      in batches the endpoint answered with success, and events EmitTo reported as delivered. */
  datatype State = State(buffer: seq<Event>, inflight: seq<Event>, holder: Option<nat>, closed: bool, batchEvents: nat,
                         threads: seq<Thread>, accepted: seq<Event>, sent: seq<Event>, acked: set<Event>)

  datatype Label =
    | Call(t: nat, e: Event) | Enqueue(t: nat) | Wake(t: nat) | Lock(t: nat)
    | Respond(t: nat, ok: bool) | Return(t: nat) | Close

  function Put(s: State, t: nat, th: Thread): State
    requires t < |s.threads|
  {
    s.(threads := s.threads[t := th])
  }

  predicate Queued(es: seq<Event>, id: string) { exists i :: 0 <= i < |es| && es[i].id == id }

  /** What follows a flush that returned nil or an error. */
  function AfterFlush(why: Purpose, ok: bool): Thread
  {
    match why
    case Full(e) => if ok then Wanting(Last(e)) else Returned(e, false)
    case Last(e) => Returned(e, ok)
    case Background => Idle
  }

  function EnqueueStep(s: State, t: nat): Option<State>
    requires t < |s.threads|
  {
    if !s.threads[t].Emitting? then None
    else
      var e := s.threads[t].e;
      if s.closed then Some(Put(s, t, Returned(e, false)))
      else if Queued(s.buffer, e.id) then Some(Put(s, t, Wanting(Last(e))))
      else
        var full := |s.buffer| + 1 >= s.batchEvents;
        var next := Put(s, t, Wanting(if full then Full(e) else Last(e)));
        Some(next.(buffer := s.buffer + [e], accepted := s.accepted + [e]))
  }

  function LockStep(s: State, t: nat): Option<State>
    requires t < |s.threads|
  {
    if !s.threads[t].Wanting? || s.holder.Some? then None
    else if s.buffer == [] then Some(Put(s, t, AfterFlush(s.threads[t].why, true)))
    else Some(Put(s, t, Sending(s.threads[t].why)).(inflight := s.buffer, buffer := [], holder := Some(t)))
  }

  function RespondStep(s: State, t: nat, ok: bool): Option<State>
    requires t < |s.threads|
  {
    if !s.threads[t].Sending? then None
    else
      var next := Put(s, t, AfterFlush(s.threads[t].why, ok)).(inflight := [], holder := None);
      Some(if ok then next.(sent := s.sent + s.inflight) else next.(buffer := s.inflight + s.buffer))
  }

  function Step(s: State, l: Label): Option<State>
  {
    if l.Close? then Some(s.(closed := true))
    else if l.t >= |s.threads| then None
    else if l.Call? then if s.threads[l.t].Idle? then Some(Put(s, l.t, Emitting(l.e))) else None
    else if l.Wake? then if s.threads[l.t].Idle? then Some(Put(s, l.t, Wanting(Background))) else None
    else if l.Enqueue? then EnqueueStep(s, l.t)
    else if l.Lock? then LockStep(s, l.t)
    else if l.Respond? then RespondStep(s, l.t, l.ok)
    else if s.threads[l.t].Returned? then
      Some(Put(s, l.t, Idle).(acked := s.acked + if s.threads[l.t].ok then {s.threads[l.t].e} else {}))
    else None
  }

  // ----- the invariant

  /** Once past Emit, the event's ID is somewhere in the log; when a success is reported it is in the sent part. */
  ghost predicate ThreadOk(s: State, t: nat)
    requires t < |s.threads|
  {
    match s.threads[t]
    case Wanting(why) => why.Background? || Queued(s.sent + s.inflight + s.buffer, why.e.id)
    case Sending(why) => s.holder == Some(t) && (why.Background? || Queued(s.sent + s.inflight, why.e.id))
    case Returned(e, ok) => ok ==> Queued(s.sent, e.id)
    case _ => true
  }

  ghost predicate Inv(s: State)
  {
    && s.accepted == s.sent + s.inflight + s.buffer
    && (s.holder.None? ==> s.inflight == [])
    && (s.holder.Some? ==> s.holder.value < |s.threads| && s.threads[s.holder.value].Sending?)
    && (forall t :: 0 <= t < |s.threads| ==> ThreadOk(s, t))
    && (forall e :: e in s.acked ==> Queued(s.sent, e.id))
  }

  lemma QueuedLeft(a: seq<Event>, b: seq<Event>, id: string)
    ensures Queued(a, id) ==> Queued(a + b, id)
  {
    if Queued(a, id) {
      var i :| 0 <= i < |a| && a[i].id == id;
      assert (a + b)[i] == a[i];
    }
  }

  lemma QueuedSplit(a: seq<Event>, b: seq<Event>, id: string)
    ensures Queued(a + b, id) <==> Queued(a, id) || Queued(b, id)
  {
    QueuedLeft(a, b, id);
    if Queued(b, id) {
      var i :| 0 <= i < |b| && b[i].id == id;
      assert (a + b)[|a| + i] == b[i];
    }
    if Queued(a + b, id) {
      var i :| 0 <= i < |a + b| && (a + b)[i].id == id;
      if i < |a| { assert a[i].id == id; } else { assert b[i - |a|].id == id; }
    }
  }

  /** The log keeps every event: what was queued in the log is queued in a longer one. */
  lemma LogGrows(s: State, s': State, id: string)
    requires s.sent + s.inflight + s.buffer <= s'.sent + s'.inflight + s'.buffer
    ensures Queued(s.sent + s.inflight + s.buffer, id) ==> Queued(s'.sent + s'.inflight + s'.buffer, id)
  {
    var old_, new_ := s.sent + s.inflight + s.buffer, s'.sent + s'.inflight + s'.buffer;
    assert new_ == old_ + new_[|old_|..];
    QueuedLeft(old_, new_[|old_|..], id);
  }

  /** Threads that did not move keep their place when the log only grows. */
  lemma OthersOk(s: State, s': State, t: nat)
    requires Inv(s) && t < |s.threads| && |s'.threads| == |s.threads|
    requires forall j :: 0 <= j < |s.threads| && j != t ==> s'.threads[j] == s.threads[j]
    requires s.sent + s.inflight + s.buffer <= s'.sent + s'.inflight + s'.buffer && s.sent <= s'.sent
    requires forall j :: 0 <= j < |s.threads| && j != t && s.threads[j].Sending? ==>
      s'.holder == s.holder && s'.inflight == s.inflight && s'.sent == s.sent
    ensures forall j :: 0 <= j < |s.threads| && j != t ==> ThreadOk(s', j)
  {
    forall j | 0 <= j < |s.threads| && j != t ensures ThreadOk(s', j) {
      assert ThreadOk(s, j);
      match s.threads[j]
      case Wanting(why) => if !why.Background? { LogGrows(s, s', why.e.id); }
      case Returned(e, ok) =>
        assert s'.sent == s.sent + s'.sent[|s.sent|..];
        QueuedLeft(s.sent, s'.sent[|s.sent|..], e.id);
      case _ =>
    }
  }

  lemma AckedOk(s: State, s': State)
    requires Inv(s) && s.sent <= s'.sent && s'.acked == s.acked
    ensures forall e :: e in s'.acked ==> Queued(s'.sent, e.id)
  {
    forall e | e in s'.acked ensures Queued(s'.sent, e.id) {
      assert s'.sent == s.sent + s'.sent[|s.sent|..];
      QueuedLeft(s.sent, s'.sent[|s.sent|..], e.id);
    }
  }

  lemma EnqueueKeeps(s: State, t: nat, s': State)
    requires Inv(s) && t < |s.threads| && EnqueueStep(s, t) == Some(s')
    ensures Inv(s')
  {
    var e := s.threads[t].e;
    assert s.sent + s.inflight + (s.buffer + [e]) == s.sent + s.inflight + s.buffer + [e];
    OthersOk(s, s', t);
    AckedOk(s, s');
    if !s.closed {
      QueuedSplit(s'.sent + s'.inflight, s'.buffer, e.id);
      if !Queued(s.buffer, e.id) { assert s'.buffer[|s.buffer|] == e; }
    }
  }

  lemma LockKeeps(s: State, t: nat, s': State)
    requires Inv(s) && t < |s.threads| && LockStep(s, t) == Some(s')
    ensures Inv(s')
  {
    assert ThreadOk(s, t);
    var why := s.threads[t].why;
    assert s.sent + [] + s.buffer == s.sent + s.buffer + [];
    forall j | 0 <= j < |s.threads| && j != t ensures !s.threads[j].Sending? { assert ThreadOk(s, j); }
    OthersOk(s, s', t);
    AckedOk(s, s');
    if s.buffer == [] { assert s.sent + s.inflight + s.buffer == s.sent; }
    else { assert s'.sent + s'.inflight == s.sent + s.inflight + s.buffer; }
  }

  lemma RespondKeeps(s: State, t: nat, ok: bool, s': State)
    requires Inv(s) && t < |s.threads| && RespondStep(s, t, ok) == Some(s')
    ensures Inv(s')
  {
    assert ThreadOk(s, t);
    var why := s.threads[t].why;
    assert s'.sent + s'.inflight + s'.buffer == s.sent + s.inflight + s.buffer by {
      if ok { assert s.sent + s.inflight + [] + s.buffer == s.sent + s.inflight + s.buffer; }
      else { assert s.sent + [] + (s.inflight + s.buffer) == s.sent + s.inflight + s.buffer; }
    }
    forall j | 0 <= j < |s.threads| && j != t ensures !s.threads[j].Sending? { assert ThreadOk(s, j); }
    OthersOk(s, s', t);
    AckedOk(s, s');
    if !why.Background? { QueuedLeft(s.sent + s.inflight, s.buffer, why.e.id); }
  }

  lemma PlainKeeps(s: State, l: Label, s': State)
    requires Inv(s) && (l.Call? || l.Wake? || l.Return?) && Step(s, l) == Some(s')
    ensures Inv(s')
  {
    assert ThreadOk(s, l.t);
    OthersOk(s, s', l.t);
  }

  lemma StepKeeps(s: State, l: Label, s': State)
    requires Inv(s) && Step(s, l) == Some(s')
    ensures Inv(s')
  {
    match l
    case Enqueue(t) => EnqueueKeeps(s, t, s');
    case Lock(t) => LockKeeps(s, t, s');
    case Respond(t, ok) => RespondKeeps(s, t, ok, s');
    case Close => forall t | 0 <= t < |s.threads| ensures ThreadOk(s', t) { assert ThreadOk(s, t); }
    case _ => PlainKeeps(s, l, s');
  }

  // ----- whole runs

  predicate Init(s: State)
  {
    && s.buffer == [] && s.inflight == [] && s.holder.None? && s.accepted == [] && s.sent == [] && s.acked == {}
    && forall t :: 0 <= t < |s.threads| ==> s.threads[t].Idle?
  }

  ghost predicate Run(ss: seq<State>, ls: seq<Label>)
  {
    |ss| == |ls| + 1 && Init(ss[0]) && forall i :: 0 <= i < |ls| ==> Step(ss[i], ls[i]) == Some(ss[i + 1])
  }

  lemma {:induction false} RunInv(ss: seq<State>, ls: seq<Label>, i: nat)
    requires Run(ss, ls) && i < |ss|
    ensures Inv(ss[i])
  {
    if i > 0 {
      RunInv(ss, ls, i - 1);
      StepKeeps(ss[i - 1], ls[i - 1], ss[i]);
    }
  }

  /** In every interleaving the accepted events are, in order, those sent, those in flight and those
      buffered; and an event EmitTo reported as delivered has its ID in the sent part. */
  lemma AcknowledgedMeansSent(ss: seq<State>, ls: seq<Label>, i: nat)
    requires Run(ss, ls) && i < |ss|
    ensures ss[i].accepted == ss[i].sent + ss[i].inflight + ss[i].buffer
    ensures forall e :: e in ss[i].acked ==> exists k :: 0 <= k < |ss[i].sent| && ss[i].sent[k].id == e.id
    ensures ss[i].holder.None? ==> ss[i].inflight == []
  {
    RunInv(ss, ls, i);
  }

  /** What was sent stays sent: later states only extend it. */
  lemma {:induction false} SentOnlyGrows(ss: seq<State>, ls: seq<Label>, i: nat, j: nat)
    requires Run(ss, ls) && i <= j < |ss|
    ensures ss[i].sent <= ss[j].sent && ss[i].accepted <= ss[j].accepted
  {
    if i < j { SentOnlyGrows(ss, ls, i, j - 1); }
  }
}
