/** The durable delivery queue: its rows, the delivery loop interleaved with the workers
    that fill it, and the three counts the dashboard adds up. */
module Outbox {
  import opened Wrappers

  type EventId = string
  type Destination = string

  datatype Status = Pending | Delivered | Failed

  datatype Row = Row(event: EventId, dest: Destination, payload: string, attempts: nat, retryAt: nat, status: Status)

  type Table = map<nat, Row>

  /** The queue's table; `nextId` is SQLite's AUTOINCREMENT counter. */
  datatype Queue = Queue(rows: Table, nextId: nat)

  // ----- single statements

  /** The row of an event for a destination, if there is one. */
  ghost predicate IsRow(rows: Table, id: nat, event: EventId, dest: Destination)
  {
    id in rows && rows[id].event == event && rows[id].dest == dest
  }

  ghost predicate HasRow(rows: Table, event: EventId, dest: Destination) { exists id :: IsRow(rows, id, event, dest) }

  /** INSERT ... ON CONFLICT(event_id,destination) DO UPDATE SET payload WHERE status != 'delivered'. */
  ghost function Upsert(q: Queue, event: EventId, dest: Destination, payload: string, now: nat): Queue
  {
    if HasRow(q.rows, event, dest) then
      var id: nat :| IsRow(q.rows, id, event, dest);
      if q.rows[id].status == Delivered then q else q.(rows := q.rows[id := q.rows[id].(payload := payload)])
    else Queue(q.rows[q.nextId := Row(event, dest, payload, 0, now, Pending)], q.nextId + 1)
  }

  /** The destination loop of storeNormalizedTx (store.go:701-705). */
  ghost function StoreAll(q: Queue, event: EventId, dests: seq<Destination>, payload: string, now: nat): Queue
    decreases |dests|
  {
    if dests == [] then q else StoreAll(Upsert(q, event, dests[0], payload, now), event, dests[1..], payload, now)
  }

  /** MarkDelivered (outbox.go:132-144). */
  function Deliver(q: Queue, id: nat): Queue
  {
    if id in q.rows then q.(rows := q.rows[id := q.rows[id].(status := Delivered)]) else q
  }

  /** MarkFailed (outbox.go:147-157). */
  function Fail(q: Queue, id: nat, retryAt: nat, maxAttempts: nat): Queue
  {
    if id !in q.rows then q
    else
      var r := q.rows[id];
      var status := if maxAttempts > 0 && r.attempts + 1 >= maxAttempts then Failed else Pending;
      q.(rows := q.rows[id := r.(attempts := r.attempts + 1, retryAt := retryAt, status := status)])
  }

  predicate Ready(rows: Table, id: nat, now: nat)
  {
    id in rows && rows[id].status == Pending && rows[id].retryAt <= now
  }

  /** FetchPending (outbox.go:79-129): the first `limit` ready rows by id. */
  ghost predicate Fetched(rows: Table, now: nat, limit: nat, ids: seq<nat>)
  {
    && |ids| <= limit
    && (forall i :: 0 <= i < |ids| ==> Ready(rows, ids[i], now))
    && (forall i, j :: 0 <= i < j < |ids| ==> ids[i] < ids[j])
    && (forall id :: Ready(rows, id, now) && id !in ids ==> |ids| == limit && forall i :: 0 <= i < |ids| ==>
      ids[i] < id)
  }

  // ----- the delivery loop and the workers

  datatype Entry = Entry(id: nat, row: Row)

  /** Where the delivery loop is: waiting, about to handle the first entry of its batch, or
      about to record that EmitTo succeeded for it. */
  datatype Phase = Handling | Acknowledging

  /** `stored` and `sent` are history variables: the (event, destination) pairs committed by
      workers, and those for which EmitTo has returned success. */
  datatype State = State(q: Queue, batch: seq<Entry>, phase: Phase,
                         stored: set<(EventId, Destination)>, sent: set<(EventId, Destination)>)

  datatype Label =
    | Store(event: EventId, dests: seq<Destination>, payload: string, now: nat)
    | Fetch(ids: seq<nat>, now: nat, limit: nat)
    | Malformed(retryAt: nat, ok: bool)   // the payload does not decode; ok: the UPDATE succeeded
    | EmitFails(retryAt: nat, ok: bool)
    | EmitSucceeds
    | Acknowledge(ok: bool)
    | Crash

  /** The event a payload decodes to. */
  datatype Library = Library(decode: string -> Option<EventId>)

  function Entries(rows: Table, ids: seq<nat>): seq<Entry>
    requires forall i :: 0 <= i < |ids| ==> ids[i] in rows
  {
    seq(|ids|, i requires 0 <= i < |ids| => Entry(ids[i], rows[ids[i]]))
  }

  ghost function Step(lib: Library, s: State, l: Label): Option<State>
  {
    match l
    case Store(event, dests, payload, now) =>
      // storeNormalizedTx marshals the event it stores
      if lib.decode(payload) != Some(event) then None
      else Some(s.(q := StoreAll(s.q, event, dests, payload, now),
                   stored := s.stored + set d | d in dests :: (event, d)))
    case Fetch(ids, now, limit) =>
      if s.batch != [] || !Fetched(s.q.rows, now, limit, ids) then None
      else Some(s.(batch := Entries(s.q.rows, ids), phase := Handling))
    case Malformed(retryAt, ok) =>
      if s.batch == [] || s.phase != Handling || lib.decode(s.batch[0].row.payload).Some? then None
      else Some(s.(q := if ok then Fail(s.q, s.batch[0].id, retryAt, 1) else s.q, batch := s.batch[1..]))
    case EmitFails(retryAt, ok) =>
      if s.batch == [] || s.phase != Handling || lib.decode(s.batch[0].row.payload).None? then None
      else Some(s.(q := if ok then Fail(s.q, s.batch[0].id, retryAt, 0) else s.q, batch := s.batch[1..]))
    case EmitSucceeds =>
      if s.batch == [] || s.phase != Handling || lib.decode(s.batch[0].row.payload).None? then None
      else Some(s.(phase := Acknowledging,
                   sent := s.sent + {(lib.decode(s.batch[0].row.payload).value, s.batch[0].row.dest)}))
    case Acknowledge(ok) =>
      if s.batch == [] || s.phase != Acknowledging then None
      else Some(s.(q := if ok then Deliver(s.q, s.batch[0].id) else s.q, batch := s.batch[1..], phase := Handling))
    case Crash => Some(s.(batch := [], phase := Handling))
  }

  // ----- invariants

  /** At most one row per event and destination, ids below the counter. */
  ghost predicate TableOk(q: Queue)
  {
    && (forall id :: id in q.rows ==> id < q.nextId)
    && (forall id, id' :: id in q.rows && id' in q.rows ==>
          q.rows[id].event == q.rows[id'].event && q.rows[id].dest == q.rows[id'].dest ==> id == id')
  }

  /** Every row was stored, holds its own event, and is delivered only if it was sent. */
  ghost predicate RowOk(lib: Library, r: Row, stored: set<(EventId, Destination)>, sent: set<(EventId, Destination)>)
  {
    && (r.event, r.dest) in stored && lib.decode(r.payload) == Some(r.event)
    && (r.status == Delivered ==> (r.event, r.dest) in sent)
    && r.status != Failed
  }

  ghost predicate RowsOk(lib: Library, rows: Table, stored: set<(EventId, Destination)>,
                         sent: set<(EventId, Destination)>)
  {
    forall id :: id in rows ==> RowOk(lib, rows[id], stored, sent)
  }

  /** An entry of the batch is still the pending row it was fetched from. */
  ghost predicate EntryOk(lib: Library, rows: Table, e: Entry)
  {
    && e.id in rows && rows[e.id].status == Pending
    && rows[e.id].event == e.row.event && rows[e.id].dest == e.row.dest
    && lib.decode(e.row.payload) == Some(e.row.event)
  }

  ghost predicate BatchOk(lib: Library, rows: Table, batch: seq<Entry>)
  {
    && (forall i :: 0 <= i < |batch| ==> EntryOk(lib, rows, batch[i]))
    && (forall i, j :: 0 <= i < j < |batch| ==> batch[i].id != batch[j].id)
  }

  ghost predicate Inv(lib: Library, s: State)
  {
    && TableOk(s.q)
    && RowsOk(lib, s.q.rows, s.stored, s.sent)
    && (forall p :: p in s.stored ==> HasRow(s.q.rows, p.0, p.1))
    && BatchOk(lib, s.q.rows, s.batch)
    && (s.phase == Acknowledging ==> s.batch != [] && (s.batch[0].row.event, s.batch[0].row.dest) in s.sent)
  }

  /** Rows stay, keep their event and destination, and a delivered row stays exactly as it is. */
  ghost predicate Grows(rows: Table, rows': Table)
  {
    forall id :: id in rows ==>
      && id in rows' && rows'[id].event == rows[id].event && rows'[id].dest == rows[id].dest
      && (rows[id].status == Delivered ==> rows'[id] == rows[id])
  }

  lemma HasRowGrows(rows: Table, rows': Table, event: EventId, dest: Destination)
    requires Grows(rows, rows') && HasRow(rows, event, dest)
    ensures HasRow(rows', event, dest)
  {
    var id: nat :| IsRow(rows, id, event, dest);
    assert IsRow(rows', id, event, dest);
  }

  lemma UpdateKeeps(lib: Library, q: Queue, id: nat, payload: string,
                    stored: set<(EventId, Destination)>, sent: set<(EventId, Destination)>)
    requires TableOk(q) && RowsOk(lib, q.rows, stored, sent) && id in q.rows && q.rows[id].status != Delivered
    requires lib.decode(payload) == Some(q.rows[id].event)
    ensures var q' := q.(rows := q.rows[id := q.rows[id].(payload := payload)]);
      TableOk(q') && RowsOk(lib, q'.rows, stored, sent) && Grows(q.rows, q'.rows)
  {
    assert RowOk(lib, q.rows[id], stored, sent);
  }

  lemma InsertKeeps(lib: Library, q: Queue, r: Row, stored: set<(EventId, Destination)>,
                         sent: set<(EventId, Destination)>)
    requires TableOk(q) && RowsOk(lib, q.rows, stored, sent) && !HasRow(q.rows, r.event, r.dest) &&
      RowOk(lib, r, stored, sent)
    ensures var q' := Queue(q.rows[q.nextId := r], q.nextId + 1);
      TableOk(q') && RowsOk(lib, q'.rows, stored, sent) && Grows(q.rows, q'.rows)
  {
    assert forall id :: id in q.rows ==> !IsRow(q.rows, id, r.event, r.dest);
  }

  lemma UpsertKeeps(lib: Library, q: Queue, event: EventId, dest: Destination, payload: string, now: nat,
                    stored: set<(EventId, Destination)>, sent: set<(EventId, Destination)>)
    requires TableOk(q) && RowsOk(lib, q.rows, stored, sent) && (event, dest) in stored &&
      lib.decode(payload) == Some(event)
    ensures var q' := Upsert(q, event, dest, payload, now);
      && TableOk(q') && RowsOk(lib, q'.rows, stored, sent) && HasRow(q'.rows, event, dest) && Grows(q.rows, q'.rows)
      && (forall id :: id in q.rows ==> q'.rows[id].status == q.rows[id].status)
  {
    var q' := Upsert(q, event, dest, payload, now);
    if HasRow(q.rows, event, dest) {
      var id: nat :| IsRow(q.rows, id, event, dest);
      if q.rows[id].status != Delivered { UpdateKeeps(lib, q, id, payload, stored, sent); }
      assert IsRow(q'.rows, id, event, dest);
    } else {
      InsertKeeps(lib, q, Row(event, dest, payload, 0, now, Pending), stored, sent);
      assert IsRow(q'.rows, q.nextId, event, dest);
    }
  }

  lemma {:induction false} StoreAllKeeps(lib: Library, q: Queue, event: EventId, dests: seq<Destination>,
                                         payload: string, now: nat,
                                         stored: set<(EventId, Destination)>, sent: set<(EventId, Destination)>)
    requires TableOk(q) && RowsOk(lib, q.rows, stored, sent) && lib.decode(payload) == Some(event)
    requires forall d :: d in dests ==> (event, d) in stored
    ensures var q' := StoreAll(q, event, dests, payload, now);
      && TableOk(q') && RowsOk(lib, q'.rows, stored, sent) && Grows(q.rows, q'.rows)
      && (forall id :: id in q.rows ==> q'.rows[id].status == q.rows[id].status)
      && (forall d :: d in dests ==> HasRow(q'.rows, event, d))
    decreases |dests|
  {
    if dests != [] {
      var q1 := Upsert(q, event, dests[0], payload, now);
      UpsertKeeps(lib, q, event, dests[0], payload, now, stored, sent);
      StoreAllKeeps(lib, q1, event, dests[1..], payload, now, stored, sent);
      var q' := StoreAll(q, event, dests, payload, now);
      HasRowGrows(q1.rows, q'.rows, event, dests[0]);
    }
  }

  lemma StoreKeeps(lib: Library, s: State, l: Label, s': State)
    requires Inv(lib, s) && l.Store? && Step(lib, s, l) == Some(s')
    ensures Inv(lib, s') && Grows(s.q.rows, s'.q.rows)
  {
    assert RowsOk(lib, s.q.rows, s'.stored, s.sent);
    StoreAllKeeps(lib, s.q, l.event, l.dests, l.payload, l.now, s'.stored, s.sent);
    forall p | p in s'.stored ensures HasRow(s'.q.rows, p.0, p.1) {
      if p in s.stored { HasRowGrows(s.q.rows, s'.q.rows, p.0, p.1); }
    }
  }

  /** Recording an outcome for the first entry of the batch leaves the other entries pending. */
  lemma MarkKeeps(lib: Library, s: State, s': State, r: Row)
    requires Inv(lib, s) && s.batch != [] && s.batch[0].id in s.q.rows
    requires s'.q == s.q.(rows := s.q.rows[s.batch[0].id := r]) && s'.batch == s.batch[1..]
    requires s'.stored == s.stored && s'.sent == s.sent && s'.phase == Handling
    requires r.event == s.q.rows[s.batch[0].id].event && r.dest == s.q.rows[s.batch[0].id].dest &&
      RowOk(lib, r, s.stored, s.sent)
    ensures Inv(lib, s') && Grows(s.q.rows, s'.q.rows)
  {
    hide HasRow;
    assert EntryOk(lib, s.q.rows, s.batch[0]);
    assert BatchOk(lib, s'.q.rows, s'.batch) by {
      forall i | 0 <= i < |s'.batch| ensures EntryOk(lib, s'.q.rows, s'.batch[i]) {
        assert EntryOk(lib, s.q.rows, s.batch[i + 1]);
      }
    }
    assert Grows(s.q.rows, s'.q.rows);
    forall p | p in s'.stored ensures HasRow(s'.q.rows, p.0, p.1) { HasRowGrows(s.q.rows, s'.q.rows, p.0, p.1); }
  }

  lemma HandleKeeps(lib: Library, s: State, l: Label, s': State)
    requires Inv(lib, s) && (l.Malformed? || l.EmitFails? || l.Acknowledge?) && Step(lib, s, l) == Some(s')
    ensures Inv(lib, s') && Grows(s.q.rows, s'.q.rows)
  {
    var e := s.batch[0];
    assert EntryOk(lib, s.q.rows, e);
    assert RowOk(lib, s.q.rows[e.id], s.stored, s.sent);
    var r := if l.ok then s'.q.rows[e.id] else s.q.rows[e.id];
    assert s.q.rows[e.id := s.q.rows[e.id]] == s.q.rows;
    MarkKeeps(lib, s, s', r);
  }

  /** Every step keeps the invariant; rows are never removed and a delivered row never changes. */
  lemma StepKeeps(lib: Library, s: State, l: Label, s': State)
    requires Inv(lib, s) && Step(lib, s, l) == Some(s')
    ensures Inv(lib, s') && Grows(s.q.rows, s'.q.rows)
  {
    match l
    case Store(_, _, _, _) => StoreKeeps(lib, s, l, s');
    case Malformed(_, _) => HandleKeeps(lib, s, l, s');
    case EmitFails(_, _) => HandleKeeps(lib, s, l, s');
    case Acknowledge(_) => HandleKeeps(lib, s, l, s');
    case Fetch(ids, _, _) => FetchKeeps(lib, s, l, s');
    case EmitSucceeds => assert EntryOk(lib, s.q.rows, s.batch[0]);
    case Crash =>
  }

  lemma FetchKeeps(lib: Library, s: State, l: Label, s': State)
    requires Inv(lib, s) && l.Fetch? && Step(lib, s, l) == Some(s')
    ensures Inv(lib, s') && Grows(s.q.rows, s'.q.rows)
  {
    forall i | 0 <= i < |s'.batch| ensures EntryOk(lib, s'.q.rows, s'.batch[i]) {
      assert Ready(s.q.rows, l.ids[i], l.now);
      assert RowOk(lib, s.q.rows[l.ids[i]], s.stored, s.sent);
    }
  }

  // ----- whole runs

  const INIT := State(Queue(map[], 1), [], Handling, {}, {})

  ghost predicate Run(lib: Library, ss: seq<State>, ls: seq<Label>)
  {
    |ss| == |ls| + 1 && ss[0] == INIT && forall i :: 0 <= i < |ls| ==> Step(lib, ss[i], ls[i]) == Some(ss[i + 1])
  }

  lemma {:induction false} RunInv(lib: Library, ss: seq<State>, ls: seq<Label>, i: nat)
    requires Run(lib, ss, ls) && i < |ss|
    ensures Inv(lib, ss[i])
  {
    if i > 0 {
      RunInv(lib, ss, ls, i - 1);
      StepKeeps(lib, ss[i - 1], ls[i - 1], ss[i]);
    }
  }

  lemma {:induction false} RunGrows(lib: Library, ss: seq<State>, ls: seq<Label>, i: nat, j: nat)
    requires Run(lib, ss, ls) && i <= j < |ss|
    ensures Grows(ss[i].q.rows, ss[j].q.rows) && ss[i].stored <= ss[j].stored
  {
    if i < j {
      RunGrows(lib, ss, ls, i, j - 1);
      RunInv(lib, ss, ls, j - 1);
      StepKeeps(lib, ss[j - 1], ls[j - 1], ss[j]);
    }
  }

  function RowIds(rows: Table, event: EventId, dest: Destination): set<nat>
  {
    set id | id in rows && rows[id].event == event && rows[id].dest == dest
  }

  lemma OneRowId(q: Queue, event: EventId, dest: Destination)
    requires TableOk(q) && HasRow(q.rows, event, dest)
    ensures |RowIds(q.rows, event, dest)| == 1
  {
    var id: nat :| IsRow(q.rows, id, event, dest);
    assert RowIds(q.rows, event, dest) == {id};
  }

  /** Outbox delivery, over every run: an event stored at step i for destination d has exactly one
      row for d in every later state; that row is delivered only after EmitTo succeeded for the
      event and destination, is never terminally failed, and once delivered never changes. */
  lemma Delivery(lib: Library, ss: seq<State>, ls: seq<Label>, i: nat, j: nat, k: nat, dest: Destination)
    requires Run(lib, ss, ls) && i < j <= k < |ss| && ls[i].Store? && dest in ls[i].dests
    ensures |RowIds(ss[j].q.rows, ls[i].event, dest)| == 1
    ensures forall id :: id in RowIds(ss[j].q.rows, ls[i].event, dest) ==>
      var row := ss[j].q.rows[id];
      && (row.status == Delivered ==> (ls[i].event, dest) in ss[j].sent)
      && row.status != Failed
      && (row.status == Delivered ==> id in ss[k].q.rows && ss[k].q.rows[id] == row)
  {
    assert Step(lib, ss[i], ls[i]) == Some(ss[i + 1]);
    assert (ls[i].event, dest) in ss[i + 1].stored;
    RunGrows(lib, ss, ls, i + 1, j);
    RunGrows(lib, ss, ls, j, k);
    RunInv(lib, ss, ls, j);
    OneRowId(ss[j].q, ls[i].event, dest);
    forall id | id in RowIds(ss[j].q.rows, ls[i].event, dest) ensures RowOk(lib, ss[j].q.rows[id], ss[j].stored,
        ss[j].sent) {
    }
  }

  /** Rows exist only for pairs a worker stored. */
  lemma NoOtherRows(lib: Library, ss: seq<State>, ls: seq<Label>, i: nat, id: nat)
    requires Run(lib, ss, ls) && i < |ss| && id in ss[i].q.rows
    ensures (ss[i].q.rows[id].event, ss[i].q.rows[id].dest) in ss[i].stored
  {
    RunInv(lib, ss, ls, i);
    assert RowOk(lib, ss[i].q.rows[id], ss[i].stored, ss[i].sent);
  }

  // ----- the three counts

  function Events(rows: Table): set<EventId> { set id | id in rows :: rows[id].event }

  function RowsOf(rows: Table, event: EventId): set<nat> { set id | id in rows && rows[id].event == event }

  function RowsWith(rows: Table, event: EventId, status: Status): set<nat>
  {
    set id | id in rows && rows[id].event == event && rows[id].status == status
  }

  /** GROUP BY event_id HAVING COUNT(*) = SUM(delivered) (outbox.go:176). */
  function DeliveredEvents(rows: Table): set<EventId>
  {
    set e | e in Events(rows) && |RowsOf(rows, e)| == |RowsWith(rows, e, Delivered)|
  }

  /** DISTINCT event_id WHERE status = 'pending' (outbox.go:187). */
  function PendingEvents(rows: Table): set<EventId>
  {
    set id | id in rows && rows[id].status == Pending :: rows[id].event
  }

  /** DISTINCT event_id WHERE status = 'failed' AND no pending row (outbox.go:198). */
  function FailedEvents(rows: Table): set<EventId>
  {
    (set id | id in rows && rows[id].status == Failed :: rows[id].event) - PendingEvents(rows)
  }

  lemma SubsetSameSize(a: set<nat>, b: set<nat>)
    requires a <= b && |a| == |b|
    ensures a == b
  {
    assert |b - a| == |b| - |a|;
  }

  /** The counting query finds exactly the events all of whose rows are delivered. */
  lemma DeliveredMeansAll(rows: Table, e: EventId)
    requires e in Events(rows)
    ensures e in DeliveredEvents(rows) <==> forall id :: id in rows && rows[id].event == e ==>
      rows[id].status == Delivered
  {
    if e in DeliveredEvents(rows) {
      SubsetSameSize(RowsWith(rows, e, Delivered), RowsOf(rows, e));
      forall id | id in rows && rows[id].event == e ensures rows[id].status == Delivered {
        assert id in RowsOf(rows, e);
      }
    }
    if forall id :: id in rows && rows[id].event == e ==> rows[id].status == Delivered {
      assert RowsWith(rows, e, Delivered) == RowsOf(rows, e);
    }
  }

  /** Every event is counted exactly once by the three counts. */
  lemma CountsPartition(rows: Table)
    ensures |DeliveredEvents(rows)| + |PendingEvents(rows)| + |FailedEvents(rows)| == |Events(rows)|
  {
    var d, p, f := DeliveredEvents(rows), PendingEvents(rows), FailedEvents(rows);
    forall e | e in d ensures e !in p && e !in f { DeliveredMeansAll(rows, e); }
    forall e | e in Events(rows) && e !in p && e !in f ensures e in d { DeliveredMeansAll(rows, e); }
    assert Events(rows) == d + p + f;
    assert d !! p && (d + p) !! f;
  }
}
