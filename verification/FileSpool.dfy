/** The file spool: files are read line by line, every line waits for the commit of its raw row, and
    a restart reads the file again (file.go:68-262, store.go:199-253). */
module FileSpool {
  import opened Text

  /** bufio.NewReaderSize in IngestFile. */
  const BUFFER := 1024 * 1024 + 1

  datatype Line = Line(offset: nat, bytes: string)

  datatype File = File(whole: bool, content: string)

  /** A raw row of the file transport; rows of other transports play no part here. */
  datatype Row = Row(id: nat, line: Line)

  // ----- what a file holds

  /** The non-empty lines from `offset` on; not ok when a line does not fit the read buffer. */
  datatype Scan = Scan(lines: seq<Line>, ok: bool)

  function Present(offset: nat, raw: string): seq<Line>
  {
    if TrimNewline(raw) == "" then [] else [Line(offset, TrimNewline(raw))]
  }

  function ScanFrom(rest: string, offset: nat): Scan
    decreases |rest|
  {
    var k := Index(rest, '\n');
    if k >= BUFFER then Scan([], false)
    else if k == |rest| then Scan(Present(offset, rest), true)
    else
      var r := ScanFrom(rest[k + 1..], offset + k + 1);
      Scan(Present(offset, rest[..k + 1]) + r.lines, r.ok)
  }

  /** CSV, JSON and XML files are one record; every other file is read by lines. */
  function Records(f: File): Scan
  {
    if f.whole then Scan(if f.content == "" then [] else [Line(0, f.content)], true) else ScanFrom(f.content, 0)
  }

  predicate Increasing(lines: seq<Line>, from: nat)
  {
    && (forall i :: 0 <= i < |lines| ==> from <= lines[i].offset)
    && forall i, j :: 0 <= i < j < |lines| ==> lines[i].offset < lines[j].offset
  }

  lemma IncreasingCons(first: seq<Line>, rest: seq<Line>, from: nat, next: nat)
    requires |first| <= 1 && (first == [] || first[0].offset == from) && from < next && Increasing(rest, next)
    ensures Increasing(first + rest, from)
  {
  }

  /** Offsets strictly increase, so an offset names one line. */
  lemma {:induction false} LinesIncrease(rest: string, offset: nat)
    ensures Increasing(ScanFrom(rest, offset).lines, offset)
    decreases |rest|
  {
    hide TrimNewline, Increasing;
    var k := Index(rest, '\n');
    if k >= BUFFER || k == |rest| {
      IncreasingOne(Present(offset, rest), offset);
      IncreasingOne([], offset);
    } else {
      LinesIncrease(rest[k + 1..], offset + k + 1);
      var later := ScanFrom(rest[k + 1..], offset + k + 1).lines;
      IncreasingCons(Present(offset, rest[..k + 1]), later, offset, offset + k + 1);
    }
  }

  lemma IncreasingOne(lines: seq<Line>, from: nat)
    requires |lines| <= 1 && (lines == [] || lines[0].offset == from)
    ensures Increasing(lines, from)
  {
  }

  lemma OffsetNamesLine(f: File, a: Line, b: Line)
    requires a in Records(f).lines && b in Records(f).lines && a.offset == b.offset
    ensures a == b
  {
    hide ScanFrom, TrimNewline;
    LinesIncrease(f.content, 0);
    var lines := Records(f).lines;
    var i :| 0 <= i < |lines| && lines[i] == a;
    var j :| 0 <= j < |lines| && lines[j] == b;
    assert i == j;
  }

  // ----- the raw store

  datatype Ack = Stored | Duplicate | Refused

  predicate Has(rows: seq<Row>, id: nat, offset: nat)
  {
    exists i :: 0 <= i < |rows| && rows[i].id == id && rows[i].line.offset == offset
  }

  /** Each (file ID, offset) at most once. */
  predicate Unique(rows: seq<Row>)
  {
    forall i, j :: 0 <= i < j < |rows| ==> !(rows[i].id == rows[j].id && rows[i].line.offset == rows[j].line.offset)
  }

  /** Every row is a line of its file. */
  predicate Genuine(rows: seq<Row>, files: map<nat, File>)
  {
    forall i :: 0 <= i < |rows| ==> rows[i].id in files && rows[i].line in Records(files[rows[i].id]).lines
  }

  predicate Complete(rows: seq<Row>, id: nat, lines: seq<Line>)
  {
    forall i :: 0 <= i < |lines| ==> Row(id, lines[i]) in rows
  }

  datatype Place = Inbox | Processing | Processed | Failed

  // ----- what the surroundings do

  /** What becomes of the record on its way: cancelled before it was sent, cancelled before its
      acknowledgement arrived, or answered by the store, which may refuse the write. */
  datatype Outcome = Unsent | Unacked | Answered(healthy: bool)

  /** Before the outcome, records that were sent earlier and never waited for may still be stored. */
  datatype Event = Event(late: seq<nat>, outcome: Outcome)

  datatype Result = Done | Broken | Cancelled

  predicate SpoolOk(rows: seq<Row>, sent: seq<Row>, files: map<nat, File>)
  {
    Unique(rows) && Genuine(rows, files) && Genuine(sent, files)
  }

  /** A file in processed/ has all its records stored. */
  predicate PlacesOk(places: map<nat, Place>, rows: seq<Row>, files: map<nat, File>)
  {
    && places.Keys == files.Keys
    && forall id :: id in places && places[id] == Processed ==> AllStored(rows, id, files)
  }

  predicate AllStored(rows: seq<Row>, id: nat, files: map<nat, File>)
  {
    id in files && Records(files[id]).ok && Complete(rows, id, Records(files[id]).lines)
  }

  lemma GenuineRow(rows: seq<Row>, files: map<nat, File>, i: nat)
    requires Genuine(rows, files) && i < |rows|
    ensures rows[i].id in files && rows[i].line in Records(files[rows[i].id]).lines
  {
  }

  lemma GenuineMore(rows: seq<Row>, files: map<nat, File>, row: Row)
    requires Genuine(rows, files) && row.id in files && row.line in Records(files[row.id]).lines
    ensures Genuine(rows + [row], files)
  {
  }

  lemma UniqueMore(rows: seq<Row>, row: Row)
    requires Unique(rows) && !Has(rows, row.id, row.line.offset)
    ensures Unique(rows + [row])
  {
    forall i, j | 0 <= i < j < |rows + [row]|
      ensures !((rows + [row])[i].id == (rows + [row])[j].id &&
        (rows + [row])[i].line.offset == (rows + [row])[j].line.offset)
    {
      if j == |rows| { assert !(rows[i].id == row.id && rows[i].line.offset == row.line.offset); }
    }
  }

  lemma PlacesMore(places: map<nat, Place>, rows: seq<Row>, rows': seq<Row>, files: map<nat, File>)
    requires PlacesOk(places, rows, files) && rows <= rows'
    ensures PlacesOk(places, rows', files)
  {
    hide Records;
    forall id | id in places && places[id] == Processed
      ensures AllStored(rows', id, files)
    {
      assert AllStored(rows, id, files);
      CompleteMore(rows, rows', id, Records(files[id]).lines);
    }
  }

  lemma CompleteMore(rows: seq<Row>, rows': seq<Row>, id: nat, lines: seq<Line>)
    requires Complete(rows, id, lines) && rows <= rows'
    ensures Complete(rows', id, lines)
  {
    forall i | 0 <= i < |lines|
      ensures Row(id, lines[i]) in rows'
    {
      var k :| 0 <= k < |rows| && rows[k] == Row(id, lines[i]);
      assert rows'[k] == rows[k];
    }
  }

  lemma CompleteNone(rows: seq<Row>, id: nat)
    ensures Complete(rows, id, [])
  {
  }

  lemma CompleteNext(rows: seq<Row>, id: nat, lines: seq<Line>, line: Line)
    requires Complete(rows, id, lines) && Row(id, line) in rows
    ensures Complete(rows, id, lines + [line])
  {
  }

  /** `done` was read, `rest` is still to be read. */
  ghost predicate Remains(done: seq<Line>, rest: string, offset: nat, all: Scan)
  {
    all == Scan(done + ScanFrom(rest, offset).lines, ScanFrom(rest, offset).ok)
  }

  lemma AllRemains(f: File)
    requires !f.whole
    ensures Remains([], f.content, 0, Records(f))
  {
  }

  /** The last line. */
  lemma ScanLast(done: seq<Line>, rest: string, offset: nat, all: Scan)
    requires Remains(done, rest, offset, all) && |rest| == Index(rest, '\n') < BUFFER
    ensures all == Scan(done + Present(offset, rest), true)
  {
    hide Index, ScanFrom, Present;
    ScanLine(rest, offset);
  }

  /** A line with another one behind it. */
  lemma ScanMore(done: seq<Line>, rest: string, offset: nat, all: Scan)
    requires Remains(done, rest, offset, all) && Index(rest, '\n') < |rest| && Index(rest, '\n') < BUFFER
    ensures var k := Index(rest, '\n');
      var now, later := Present(offset, rest[..k + 1]), ScanFrom(rest[k + 1..], offset + k + 1).lines;
      Remains(done + now, rest[k + 1..], offset + k + 1, all) && all.lines == done + (now + later)
  {
    hide Index, ScanFrom, Present;
    var k := Index(rest, '\n');
    ScanLine(rest, offset);
    Regroup(done, Present(offset, rest[..k + 1]), ScanFrom(rest[k + 1..], offset + k + 1).lines);
  }

  lemma Regroup(a: seq<Line>, b: seq<Line>, c: seq<Line>)
    ensures a + (b + c) == a + b + c
  {
  }

  /** Reading one line moves it from the rest to what is done. */
  lemma ScanTurn(done: seq<Line>, rest: string, offset: nat, all: Scan)
    requires Remains(done, rest, offset, all)
    ensures var k := Index(rest, '\n');
      if k >= BUFFER then !all.ok
      else
        var line := TrimNewline(if k == |rest| then rest else rest[..k + 1]);
        var done' := if line == "" then done else done + [Line(offset, line)];
        && (line != "" ==> Line(offset, line) in all.lines)
        && if k == |rest| then all == Scan(done', true) else Remains(done', rest[k + 1..], offset + k + 1, all)
  {
    hide Index, TrimNewline, ScanFrom, Present, Remains;
    var k := Index(rest, '\n');
    if k >= BUFFER {
      ScanTooLong(done, rest, offset, all);
    } else if k == |rest| {
      ScanLast(done, rest, offset, all);
      AddsLine(done, offset, rest, []);
    } else {
      ScanMore(done, rest, offset, all);
      AddsLine(done, offset, rest[..k + 1], ScanFrom(rest[k + 1..], offset + k + 1).lines);
    }
  }

  lemma ScanTooLong(done: seq<Line>, rest: string, offset: nat, all: Scan)
    requires Remains(done, rest, offset, all) && Index(rest, '\n') >= BUFFER
    ensures !all.ok
  {
    hide Index;
  }

  lemma AddsLine(done: seq<Line>, offset: nat, raw: string, later: seq<Line>)
    ensures var line, now := TrimNewline(raw), Present(offset, raw);
      && done + now == (if line == "" then done else done + [Line(offset, line)])
      && (line != "" ==> Line(offset, line) in done + (now + later) && Line(offset, line) in done + now)
  {
    hide TrimNewline;
    var now := Present(offset, raw);
    if now == [] {
      assert done + [] == done;
    } else {
      assert (done + (now + later))[|done|] == now[0] && (done + now)[|done|] == now[0];
    }
  }

  /** One turn of the line loop. */
  lemma ScanLine(rest: string, offset: nat)
    ensures var k := Index(rest, '\n'); var s := ScanFrom(rest, offset);
      if k >= BUFFER then s == Scan([], false)
      else if k == |rest| then s == Scan(Present(offset, rest), true)
      else
        var r := ScanFrom(rest[k + 1..], offset + k + 1);
        s == Scan(Present(offset, rest[..k + 1]) + r.lines, r.ok)
  {
  }

  class Spool {
    const files: map<nat, File>
    const events: nat -> Event
    const renames: nat -> bool
    var clock: nat
    var rows: seq<Row>
    var sent: seq<Row>
    var places: map<nat, Place>

    ghost predicate Valid()
      reads this
    {
      SpoolOk(rows, sent, files) && PlacesOk(places, rows, files)
    }

    constructor (files: map<nat, File>, events: nat -> Event, renames: nat -> bool)
      ensures Valid() && this.files == files && rows == [] && forall id :: id in files ==> places[id] == Inbox
    {
      this.files, this.events, this.renames := files, events, renames;
      clock, rows, sent, places := 0, [], [], map id | id in files :: Inbox;
    }

    /** RawStore.Store for a file record, with its replay check; a different record under the same
        identity is refused. */
    method Store(row: Row, healthy: bool) returns (ack: Ack)
      requires Valid() && row.id in files && row.line in Records(files[row.id]).lines
      modifies this`rows
      ensures Valid()
      ensures ack == if !healthy then Refused else if row in old(rows) then Duplicate else Stored
      ensures rows == if ack.Stored? then old(rows) + [row] else old(rows)
    {
      hide Records, Unique, Genuine, PlacesOk;
      if !healthy { return Refused; }
      var i := 0;
      while i < |rows|
        invariant i <= |rows| && rows == old(rows)
        invariant forall k :: 0 <= k < i ==> !(rows[k].id == row.id && rows[k].line.offset == row.line.offset)
      {
        if rows[i].id == row.id && rows[i].line.offset == row.line.offset {
          GenuineRow(rows, files, i);
          OffsetNamesLine(files[row.id], rows[i].line, row.line);
          return if rows[i].line.bytes == row.line.bytes then Duplicate else Refused;
        }
        i := i + 1;
      }
      UniqueMore(rows, row);
      GenuineMore(rows, files, row);
      PlacesMore(places, rows, rows + [row], files);
      rows := rows + [row];
      ack := Stored;
    }

    /** Records sent before a cancellation and stored only now. */
    method StoreLate(late: seq<nat>)
      requires Valid()
      modifies this`rows
      ensures Valid() && old(rows) <= rows
    {
      var i := 0;
      while i < |late|
        invariant i <= |late| && Valid() && old(rows) <= rows
      {
        if late[i] < |sent| {
          GenuineRow(sent, files, late[i]);
          var _ := Store(sent[late[i]], true);
        }
        i := i + 1;
      }
    }

    /** What the surroundings do next. */
    method Tick() returns (outcome: Outcome)
      requires Valid()
      modifies this`rows, this`clock
      ensures Valid() && old(rows) <= rows && clock == old(clock) + 1
      ensures outcome == events(old(clock)).outcome
    {
      outcome := events(clock).outcome;
      StoreLate(events(clock).late);
      clock := clock + 1;
    }

    /** Send one record and wait for its acknowledgement. */
    method Send(row: Row, outcome: Outcome) returns (r: Result)
      requires Valid() && row.id in files && row.line in Records(files[row.id]).lines
      modifies this`rows, this`sent
      ensures Valid() && old(rows) <= rows
      ensures r == if !outcome.Answered? then Cancelled else if outcome.healthy then Done else Broken
      ensures r.Done? ==> row in rows
    {
      if outcome.Unsent? { return Cancelled; }
      if outcome.Unacked? {
        GenuineMore(sent, files, row);
        sent := sent + [row];
        return Cancelled;
      }
      var ack := Store(row, outcome.healthy);
      r := if ack.Refused? then Broken else Done;
    }

    /** Nothing is cancelled or refused, and every rename works, from `from` on. */
    ghost predicate Quiet(from: nat)
    {
      forall t :: t >= from ==> events(t).outcome == Answered(true) && renames(t)
    }

    /** IngestFile, line by line or as one record. */
    method IngestFile(id: nat) returns (r: Result)
      requires Valid() && id in files
      modifies this`rows, this`sent, this`clock
      ensures Valid() && old(rows) <= rows && clock >= old(clock)
      ensures r.Done? ==> AllStored(rows, id, files)
      ensures Quiet(old(clock)) ==> r == if Records(files[id]).ok then Done else Broken
    {
      if files[id].whole {
        r := IngestWhole(id);
      } else {
        r := IngestLines(id);
      }
    }

    method IngestWhole(id: nat) returns (r: Result)
      requires Valid() && id in files && files[id].whole
      modifies this`rows, this`sent, this`clock
      ensures Valid() && old(rows) <= rows && clock >= old(clock)
      ensures r.Done? ==> AllStored(rows, id, files)
      ensures Quiet(old(clock)) ==> r.Done?
    {
      hide Valid;
      var content := files[id].content;
      if content == "" { return Done; }
      var outcome := Tick();
      r := Send(Row(id, Line(0, content)), outcome);
    }

    method IngestLines(id: nat) returns (r: Result)
      requires Valid() && id in files && !files[id].whole
      modifies this`rows, this`sent, this`clock
      ensures Valid() && old(rows) <= rows && clock >= old(clock)
      ensures r.Done? ==> AllStored(rows, id, files)
      ensures Quiet(old(clock)) ==> r == if Records(files[id]).ok then Done else Broken
    {
      hide Valid, Complete, Index, TrimNewline, Remains;
      var rest := files[id].content;
      var offset: nat := 0;
      ghost var all := Records(files[id]);
      ghost var done: seq<Line> := [];
      CompleteNone(rows, id);
      AllRemains(files[id]);
      while true
        invariant Valid() && old(rows) <= rows && clock >= old(clock)
        invariant Complete(rows, id, done) && Remains(done, rest, offset, all)
        decreases |rest|
      {
        ScanTurn(done, rest, offset, all);
        var k := Index(rest, '\n');
        if k >= BUFFER { return Broken; }
        var eof := k == |rest|;
        var rawLine := if eof then rest else rest[..k + 1];
        ghost var before := rows;
        var outcome := Tick();
        CompleteMore(before, rows, id, done);
        if outcome.Unsent? { return Cancelled; }
        var line := TrimNewline(rawLine);
        if line != "" {
          var row := Row(id, Line(offset, line));
          before := rows;
          r := Send(row, outcome);
          if !r.Done? { return; }
          CompleteMore(before, rows, id, done);
          CompleteNext(rows, id, done, row.line);
          done := done + [row.line];
        }
        if eof { return Done; }
        rest, offset := rest[k + 1..], offset + |rawLine|;
      }
    }

    /** os.Rename, which may fail; processFile ignores the failure. */
    method Move(id: nat, place: Place) returns (moved: bool)
      requires Valid() && id in files && (place == Processed ==> AllStored(rows, id, files))
      modifies this`places, this`clock
      ensures Valid() && clock == old(clock) + 1 && moved == renames(old(clock))
      ensures places == if moved then old(places)[id := place] else old(places)
    {
      hide Records, Complete, AllStored;
      moved := renames(clock);
      if moved { places := places[id := place]; }
      clock := clock + 1;
    }

    method ProcessFile(id: nat) returns (r: Result)
      requires Valid() && id in files && places[id] == Processing
      modifies this`rows, this`sent, this`clock, this`places
      ensures Valid() && old(rows) <= rows && clock >= old(clock)
      ensures places[id] in {Processing, if r.Done? then Processed else if r.Broken? then Failed else Processing}
      ensures places == old(places)[id := places[id]]
      ensures Quiet(old(clock)) ==> places[id] == if Records(files[id]).ok then Processed else Failed
      ensures Quiet(old(clock)) ==> !r.Cancelled?
    {
      hide Records, AllStored, SpoolOk;
      r := IngestFile(id);
      if !r.Cancelled? { var _ := Move(id, if r.Done? then Processed else Failed); }
    }

    /** After a restart: the files found in processing/, until the first cancellation. */
    method ScanProcessing(ids: seq<nat>)
      requires Valid()
      modifies this`rows, this`sent, this`clock, this`places
      ensures Valid() && old(rows) <= rows && clock >= old(clock)
      ensures Quiet(old(clock)) ==>
        forall i :: 0 <= i < |ids| && ids[i] in files && old(places)[ids[i]] == Processing ==>
          places[ids[i]] == if Records(files[ids[i]]).ok then Processed else Failed
      ensures forall id :: id in files && old(places)[id] != Processing ==> places[id] == old(places)[id]
    {
      hide Records, AllStored, SpoolOk;
      var i := 0;
      while i < |ids|
        invariant i <= |ids| && Valid() && old(rows) <= rows && clock >= old(clock)
        invariant forall id :: id in files && old(places)[id] != Processing ==> places[id] == old(places)[id]
        invariant Quiet(old(clock)) ==> forall id :: id in files && old(places)[id] == Processing ==>
          places[id] == if id in ids[..i] then (if Records(files[id]).ok then Processed else Failed) else Processing
      {
        assert ids[..i + 1] == ids[..i] + [ids[i]];
        if ids[i] in files && places[ids[i]] == Processing {
          var r := ProcessFile(ids[i]);
          if r.Cancelled? { return; }
        }
        i := i + 1;
      }
    }

    /** The files found in inbox/: moved to processing/ and ingested. */
    method ScanInbox(ids: seq<nat>)
      requires Valid()
      modifies this`rows, this`sent, this`clock, this`places
      ensures Valid() && old(rows) <= rows && clock >= old(clock)
      ensures Quiet(old(clock)) ==> forall i :: 0 <= i < |ids| && ids[i] in files && old(places)[ids[i]] == Inbox ==>
        places[ids[i]] == if Records(files[ids[i]]).ok then Processed else Failed
      ensures forall id :: id in files && old(places)[id] != Inbox ==> places[id] == old(places)[id]
    {
      hide Records, AllStored, SpoolOk;
      var i := 0;
      while i < |ids|
        invariant i <= |ids| && Valid() && old(rows) <= rows && clock >= old(clock)
        invariant forall id :: id in files && old(places)[id] != Inbox ==> places[id] == old(places)[id]
        invariant Quiet(old(clock)) ==> forall id :: id in files && old(places)[id] == Inbox ==>
          places[id] == if id in ids[..i] then (if Records(files[id]).ok then Processed else Failed) else Inbox
      {
        assert ids[..i + 1] == ids[..i] + [ids[i]];
        if ids[i] in files && places[ids[i]] == Inbox {
          var moved := Move(ids[i], Processing);
          if moved { var _ := ProcessFile(ids[i]); }
        }
        i := i + 1;
      }
    }

    /** A crash loses what was sent and not stored. */
    method Crash(late: seq<nat>)
      requires Valid()
      modifies this`rows, this`sent
      ensures Valid() && old(rows) <= rows && sent == []
    {
      StoreLate(late);
      sent := [];
    }

    /** Any run of scans and crashes keeps every row, and whatever stands in processed/ at its end has
        its rows exactly once. */
    method Session(ops: seq<Op>)
      requires Valid()
      modifies this`rows, this`sent, this`clock, this`places
      ensures Valid() && old(rows) <= rows
      ensures forall id :: id in places && places[id] == Processed ==>
        Records(files[id]).ok && multiset(RowsOf(rows, id)) == multiset(Records(files[id]).lines)
      ensures forall id :: id in places ==> multiset(RowsOf(rows, id)) <= multiset(Records(files[id]).lines)
    {
      hide Records, SpoolOk, RowsOf;
      var i := 0;
      while i < |ops|
        invariant i <= |ops| && Valid() && old(rows) <= rows
      {
        var op := ops[i];
        if op.Restart? { ScanProcessing(op.ids); }
        else if op.Poll? { ScanInbox(op.ids); }
        else { Crash(op.late); }
        i := i + 1;
      }
      forall id | id in places
        ensures multiset(RowsOf(rows, id)) <= multiset(Records(files[id]).lines)
        ensures places[id] == Processed ==>
          Records(files[id]).ok && multiset(RowsOf(rows, id)) == multiset(Records(files[id]).lines)
      {
        AtMostOnce(rows, id, sent, files);
        if places[id] == Processed { ExactlyOnce(rows, id, sent, files); }
      }
    }
  }

  datatype Op = Restart(ids: seq<nat>) | Poll(ids: seq<nat>) | Crash(late: seq<nat>)

  // ----- exactly once

  /** The lines stored for a file, in the order of their commits. */
  function RowsOf(rows: seq<Row>, id: nat): seq<Line>
  {
    if rows == [] then []
    else RowsOf(rows[..|rows| - 1], id) + if rows[|rows| - 1].id == id then [rows[|rows| - 1].line] else []
  }

  lemma {:induction false} RowsOfIn(rows: seq<Row>, id: nat, line: Line)
    ensures line in RowsOf(rows, id) <==> Row(id, line) in rows
  {
    if rows != [] {
      var last := |rows| - 1;
      RowsOfIn(rows[..last], id, line);
      assert rows == rows[..last] + [rows[last]];
    }
  }

  lemma LastNew(rows: seq<Row>)
    requires Unique(rows) && rows != []
    ensures Unique(rows[..|rows| - 1]) && rows[|rows| - 1] !in rows[..|rows| - 1]
  {
  }

  /** In a store with unique rows no line of a file is stored twice. */
  lemma {:induction false} RowsOfOnce(rows: seq<Row>, id: nat, line: Line)
    requires Unique(rows)
    ensures multiset(RowsOf(rows, id))[line] <= 1
  {
    hide Unique;
    if rows != [] {
      var before, row := rows[..|rows| - 1], rows[|rows| - 1];
      LastNew(rows);
      RowsOfOnce(before, id, line);
      RowsOfIn(before, id, line);
      assert multiset(RowsOf(before, id) + [row.line]) == multiset(RowsOf(before, id)) + multiset{row.line};
    }
  }

  lemma {:induction false} IncreasingOnce(lines: seq<Line>, from: nat, line: Line)
    requires Increasing(lines, from)
    ensures multiset(lines)[line] <= 1
  {
    if lines != [] {
      assert lines == [lines[0]] + lines[1..];
      IncreasingOnce(lines[1..], from, line);
      if lines[0] == line { assert line !in lines[1..]; }
    }
  }

  lemma RecordsOnce(f: File, line: Line)
    ensures multiset(Records(f).lines)[line] <= 1
  {
    hide ScanFrom, Increasing;
    LinesIncrease(f.content, 0);
    if f.whole { IncreasingOne(Records(f).lines, 0); }
    IncreasingOnce(Records(f).lines, 0, line);
  }

  /** At every moment the rows of a file are lines of it, each at most once. */
  lemma AtMostOnce(rows: seq<Row>, id: nat, sent: seq<Row>, files: map<nat, File>)
    requires SpoolOk(rows, sent, files) && id in files
    ensures multiset(RowsOf(rows, id)) <= multiset(Records(files[id]).lines)
  {
    hide Records, RowsOf, Unique;
    var lines := Records(files[id]).lines;
    forall line
      ensures multiset(RowsOf(rows, id))[line] <= multiset(lines)[line]
    {
      RowsOfOnce(rows, id, line);
      RowsOfIn(rows, id, line);
      if Row(id, line) in rows { assert line in lines; }
    }
  }

  /** File spool exactly once: when the file reaches processed/, its rows are exactly its records. */
  lemma ExactlyOnce(rows: seq<Row>, id: nat, sent: seq<Row>, files: map<nat, File>)
    requires SpoolOk(rows, sent, files) && AllStored(rows, id, files)
    ensures multiset(RowsOf(rows, id)) == multiset(Records(files[id]).lines)
  {
    hide Records, RowsOf, SpoolOk;
    var lines := Records(files[id]).lines;
    AtMostOnce(rows, id, sent, files);
    forall line
      ensures multiset(lines)[line] <= multiset(RowsOf(rows, id))[line]
    {
      RecordsOnce(files[id], line);
      RowsOfIn(rows, id, line);
      if line in lines { assert line in RowsOf(rows, id); }
    }
  }

  // ----- what a line-delimited file holds

  datatype TextLine = TextLine(bytes: string, crlf: bool)

  predicate TextOk(t: TextLine)
  {
    && '\n' !in t.bytes && |t.bytes| + 1 < BUFFER
    && (t.bytes != "" ==> t.bytes[|t.bytes| - 1] != '\r')
  }

  function PrintText(t: TextLine): string { t.bytes + if t.crlf then "\r\n" else "\n" }

  function PrintTexts(ts: seq<TextLine>): string
  {
    if ts == [] then "" else PrintText(ts[0]) + PrintTexts(ts[1..])
  }

  /** The non-empty lines of the printed file at their byte offsets. */
  function LinesOf(ts: seq<TextLine>, offset: nat): seq<Line>
  {
    if ts == [] then []
    else (if ts[0].bytes == "" then [] else [Line(offset, ts[0].bytes)]) + LinesOf(ts[1..], offset + |PrintText(ts[0])|)
  }

  lemma TextTrimmed(t: TextLine)
    requires TextOk(t)
    ensures TrimNewline(PrintText(t)) == t.bytes && TrimNewline(t.bytes) == t.bytes
  {
    var b := t.bytes;
    assert b != "" ==> b[|b| - 1] != '\n';
    assert TrimNewline(b) == b;
    assert (b + "\n")[..|b|] == b;
    assert (b + "\r\n")[..|b| + 1] == b + "\r";
    assert (b + "\r")[..|b|] == b;
  }

  lemma TextIndex(t: TextLine, rest: string)
    requires TextOk(t)
    ensures 0 < |PrintText(t)| <= BUFFER && Index(PrintText(t) + rest, '\n') == |PrintText(t)| - 1
    ensures (PrintText(t) + rest)[..|PrintText(t)|] == PrintText(t) && (PrintText(t) + rest)[|PrintText(t)|..] == rest
  {
    var body := t.bytes + if t.crlf then "\r" else "";
    assert PrintText(t) + rest == body + ("\n" + rest);
    IndexSkip(body, "\n" + rest, '\n');
  }

  lemma LastPrinted(last: string, offset: nat)
    requires TextOk(TextLine(last, false))
    ensures ScanFrom(last, offset) == Scan(if last == "" then [] else [Line(offset, last)], true)
  {
    hide TrimNewline, PrintText;
    IndexSkip(last, "", '\n');
    assert last + "" == last && Index("", '\n') == 0;
    TextTrimmed(TextLine(last, false));
  }

  lemma TextPrinted(t: TextLine, rest: string, offset: nat)
    requires TextOk(t)
    ensures var r := ScanFrom(rest, offset + |PrintText(t)|);
      ScanFrom(PrintText(t) + rest, offset) ==
        Scan((if t.bytes == "" then [] else [Line(offset, t.bytes)]) + r.lines, r.ok)
  {
    hide TrimNewline, PrintText, Index, ScanFrom;
    ScanLine(PrintText(t) + rest, offset);
    TextIndex(t, rest);
    TextTrimmed(t);
  }

  /** Every way of writing the lines is read back: the last line may lack its line feed. */
  lemma {:induction false} LinesPrinted(ts: seq<TextLine>, last: string, offset: nat)
    requires (forall i :: 0 <= i < |ts| ==> TextOk(ts[i])) && TextOk(TextLine(last, false))
    ensures ScanFrom(PrintTexts(ts) + last, offset) ==
      Scan(LinesOf(ts, offset) + (if last == "" then [] else [Line(offset + |PrintTexts(ts)|, last)]), true)
    decreases |ts|
  {
    hide TrimNewline, PrintText, Index, ScanFrom, TextOk;
    if ts == [] {
      LastPrinted(last, offset);
      assert PrintTexts(ts) + last == last;
    } else {
      var rest := PrintTexts(ts[1..]) + last;
      assert PrintTexts(ts) + last == PrintText(ts[0]) + rest;
      TextPrinted(ts[0], rest, offset);
      LinesPrinted(ts[1..], last, offset + |PrintText(ts[0])|);
    }
  }
}
