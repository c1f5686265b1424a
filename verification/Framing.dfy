/** Syslog over TCP: octet counting and newline framing on one connection
    (syslog.go:221-328; sections 3.4.1 and 3.4.2 of RFC 6587). */
module Framing {
  import opened Text

  const MAX_FRAME := 10 * 1024 * 1024

  datatype Frame = Frame(bytes: string, eof: bool) | TooLarge

  /** readBoundedFrame as a function of the whole stream. */
  function FrameSpec(data: string, d: char, max: nat): Frame
  {
    var k := Index(data, d);
    var n := if k < |data| then k + 1 else |data|;
    if n > max then TooLarge else Frame(data[..n], k == |data|)
  }

  predicate Digit(c: char) { '0' <= c <= '9' }

  predicate AllDigits(s: string) { s != "" && forall i :: 0 <= i < |s| ==> Digit(s[i]) }

  function DigitValue(c: char): nat
    requires Digit(c)
  {
    c as int - '0' as int
  }

  function ParseNat(s: string): nat
    requires forall i :: 0 <= i < |s| ==> Digit(s[i])
  {
    if s == "" then 0 else ParseNat(s[..|s| - 1]) * 10 + DigitValue(s[|s| - 1])
  }

  /** MSG-LEN: strconv.Atoi of the trimmed prefix; 0 stands for every refused value. */
  function MsgLen(prefix: string): nat
  {
    var t := TrimRight(prefix);
    if AllDigits(t) && ParseNat(t) <= MAX_FRAME then ParseNat(t) else 0
  }

  predicate OctetCounted(data: string) { data != "" && '1' <= data[0] <= '9' }

  /** One turn of the connection loop: the messages it emits, and the rest of the stream unless
      the connection is given up. */
  datatype Turn = Stop(emit: seq<string>) | Go(emit: seq<string>, rest: string)

  /** Octet counting, after the length prefix was read. */
  function OctetTurn(prefix: Frame, rest: string): Turn
  {
    if prefix.TooLarge? || prefix.eof || MsgLen(prefix.bytes) == 0 || |rest| < MsgLen(prefix.bytes) then Stop([])
    else Go([rest[..MsgLen(prefix.bytes)]], rest[MsgLen(prefix.bytes)..])
  }

  /** Newline framing, after the line was read. */
  function LineTurn(line: Frame, rest: string): Turn
  {
    if line.TooLarge? || |TrimNewline(line.bytes)| > MAX_FRAME then Stop([])
    else
      var emit := if TrimNewline(line.bytes) == "" then [] else [TrimNewline(line.bytes)];
      if line.eof then Stop(emit) else Go(emit, rest)
  }

  function After(data: string, f: Frame): string
  {
    if f.Frame? && |f.bytes| <= |data| then data[|f.bytes|..] else ""
  }

  function NextTurn(data: string): (turn: Turn)
    requires data != ""
    ensures turn.Go? ==> |turn.rest| < |data|
  {
    if OctetCounted(data) then
      OctetTurn(FrameSpec(data, ' ', 16), After(data, FrameSpec(data, ' ', 16)))
    else
      LineTurn(FrameSpec(data, '\n', MAX_FRAME + 2), After(data, FrameSpec(data, '\n', MAX_FRAME + 2)))
  }

  /** What handleTCPConn emits for a connection whose whole input is `data`. */
  function Decode(data: string): seq<string>
    decreases |data|
  {
    if data == "" then []
    else
      var turn := NextTurn(data);
      turn.emit + if turn.Go? then Decode(turn.rest) else []
  }

  // ----- the reader, whatever size of pieces it returns

  datatype SliceEnd = Delimiter | BufferFull | Eof

  /** bufio.Reader over the rest of the stream.  `chunk` says how much of a line fits the buffer at
      each call: any positive number. */
  class Reader {
    var data: string
    var calls: nat
    const chunk: nat -> nat

    constructor (data: string, chunk: nat -> nat)
      ensures this.data == data && this.chunk == chunk && calls == 0
    {
      this.data, this.chunk, this.calls := data, chunk, 0;
    }

    /** ReadSlice: up to the delimiter, or as much as the buffer holds, or the rest. */
    method ReadSlice(d: char) returns (part: string, end: SliceEnd)
      modifies this
      ensures old(data) == part + data
      ensures end.Delimiter? ==> Index(old(data), d) < |old(data)| && |part| == Index(old(data), d) + 1
      ensures end.BufferFull? ==> 0 < |part| <= Index(old(data), d)
      ensures end.Eof? ==> data == "" && Index(old(data), d) == |old(data)|
    {
      var k := Index(data, d);
      var room := chunk(calls);
      if room == 0 { room := 1; }
      calls := calls + 1;
      if room <= k && room < |data| {
        part, end := data[..room], BufferFull;
        data := data[room..];
      } else if k < |data| {
        part, end := data[..k + 1], Delimiter;
        data := data[k + 1..];
      } else {
        part, end := data, Eof;
        data := "";
      }
    }

    /** readBoundedFrame (syslog.go:316-328): the result does not depend on `chunk`. */
    method ReadBoundedFrame(d: char, max: nat) returns (f: Frame)
      modifies this
      ensures f == FrameSpec(old(data), d, max)
      ensures f.Frame? ==> data == After(old(data), f)
    {
      ghost var all := data;
      var frame := "";
      while true
        invariant |frame| <= |all| && frame == all[..|frame|] && data == all[|frame|..]
        invariant |frame| <= Index(all, d) && |frame| <= max
        decreases |data|
      {
        ghost var pos := |frame|;
        IndexFrom(all, pos, d);
        var part, end := ReadSlice(d);
        assert all[pos..] == part + data;
        SliceExtends(all, pos, part, data);
        if |frame| + |part| > max { return TooLarge; }
        frame := frame + part;
        if !end.BufferFull? { return Frame(frame, end.Eof?); }
      }
    }

    /** Octet counting: <MSG-LEN> SP <MSG> (syslog.go:241-269). */
    method ReadCounted() returns (turn: Turn)
      requires OctetCounted(data)
      modifies this
      ensures turn == NextTurn(old(data)) && (turn.Go? ==> data == turn.rest)
    {
      var prefix := ReadBoundedFrame(' ', 16);
      if prefix.TooLarge? || prefix.eof { return Stop([]); }
      var n := MsgLen(prefix.bytes);
      if n == 0 || n > |data| { return Stop([]); }
      var payload := data[..n];
      data := data[n..];
      turn := Go([payload], data);
    }

    /** Newline framing (syslog.go:273-308). */
    method ReadLine() returns (turn: Turn)
      requires data != "" && !OctetCounted(data)
      modifies this
      ensures turn == NextTurn(old(data)) && (turn.Go? ==> data == turn.rest)
    {
      var line := ReadBoundedFrame('\n', MAX_FRAME + 2);
      if line.TooLarge? { return Stop([]); }
      var payload := TrimNewline(line.bytes);
      if |payload| > MAX_FRAME { return Stop([]); }
      var emit := if payload == "" then [] else [payload];
      turn := if line.eof then Stop(emit) else Go(emit, data);
    }

    /** handleTCPConn (syslog.go:228-310), without the cancellation checks. */
    method HandleConn() returns (out: seq<string>)
      modifies this
      ensures out == Decode(old(data))
    {
      hide Decode, NextTurn;
      DecodeEmpty();
      out := [];
      ghost var all := data;
      while data != ""
        invariant Decode(all) == out + Decode(data)
        decreases |data|
      {
        DecodeTurn(data);
        var turn;
        if '1' <= data[0] <= '9' { turn := ReadCounted(); } else { turn := ReadLine(); }
        out := out + turn.emit;
        if turn.Stop? { return; }
      }
    }
  }

  lemma DecodeEmpty()
    ensures Decode("") == []
  {
  }

  lemma DecodeTurn(data: string)
    requires data != ""
    ensures Decode(data) == NextTurn(data).emit + if NextTurn(data).Go? then Decode(NextTurn(data).rest) else []
    ensures NextTurn(data).Go? ==> |NextTurn(data).rest| < |data|
  {
  }

  lemma SliceExtends(all: string, pos: nat, part: string, rest: string)
    requires pos <= |all| && all[pos..] == part + rest
    ensures pos + |part| <= |all| && all[..pos] + part == all[..pos + |part|] && rest == all[pos + |part|..]
  {
    assert part == all[pos..][..|part|];
    assert rest == all[pos..][|part|..];
  }

  lemma IndexFrom(all: string, pos: nat, d: char)
    requires pos <= Index(all, d)
    ensures Index(all, d) == pos + Index(all[pos..], d)
  {
    assert d !in all[..pos] by { assert all[..pos] == all[..Index(all, d)][..pos]; }
    IndexSkip(all[..pos], all[pos..], d);
    assert all == all[..pos] + all[pos..];
  }

  // ----- printing

  datatype Message = Counted(msg: string) | Line(msg: string, crlf: bool)

  function Digits(n: nat): string
  {
    if n < 10 then [('0' as int + n) as char] else Digits(n / 10) + [('0' as int + n % 10) as char]
  }

  function Print(m: Message): string
  {
    match m
    case Counted(msg) => Digits(|msg|) + " " + msg
    case Line(msg, crlf) => msg + if crlf then "\r\n" else "\n"
  }

  function PrintAll(ms: seq<Message>): string
  {
    if ms == [] then "" else Print(ms[0]) + PrintAll(ms[1..])
  }

  function Bodies(ms: seq<Message>): seq<string>
  {
    if ms == [] then [] else [ms[0].msg] + Bodies(ms[1..])
  }

  /** What each framing can carry. */
  predicate Printable(m: Message)
  {
    && 0 < |m.msg| <= MAX_FRAME
    && (m.Line? ==> !('1' <= m.msg[0] <= '9') && '\n' !in m.msg && m.msg[|m.msg| - 1] != '\r')
  }

  function Pow10(k: nat): nat { if k == 0 then 1 else 10 * Pow10(k - 1) }

  lemma {:induction false} DigitsOk(n: nat, k: nat)
    requires 0 < n < Pow10(k)
    ensures 0 < |Digits(n)| <= k && AllDigits(Digits(n)) && ParseNat(Digits(n)) == n && '1' <= Digits(n)[0] <= '9'
  {
    if n >= 10 {
      DigitsOk(n / 10, k - 1);
      var d := Digits(n / 10);
      assert Digits(n)[..|Digits(n)| - 1] == d;
    }
  }

  lemma MaxFrameDigits()
    ensures MAX_FRAME < Pow10(8)
  {
    assert Pow10(4) == 10000;
    assert Pow10(8) == 10 * (10 * (10 * (10 * Pow10(4))));
  }

  lemma {:induction false} NoTrim(s: string)
    requires AllDigits(s)
    ensures TrimRight(s + " ") == s
  {
    assert (s + " ")[..|s|] == s;
  }

  lemma PrefixFrame(d: string, rest: string)
    requires AllDigits(d) && |d| <= 8
    ensures FrameSpec(d + (" " + rest), ' ', 16) == Frame(d + " ", false)
    ensures After(d + (" " + rest), Frame(d + " ", false)) == rest
  {
    var all := d + (" " + rest);
    assert ' ' !in d;
    IndexSkip(d, " " + rest, ' ');
    assert all[..|d| + 1] == d + " ";
    assert all[|d| + 1..] == rest;
  }

  lemma CountedStep(m: Message, rest: string)
    requires m.Counted? && Printable(m)
    ensures Print(m) + rest != "" && NextTurn(Print(m) + rest) == Go([m.msg], rest)
  {
    var n, d := |m.msg|, Digits(|m.msg|);
    MaxFrameDigits();
    DigitsOk(n, 8);
    assert Print(m) + rest == d + (" " + (m.msg + rest));
    PrefixFrame(d, m.msg + rest);
    NoTrim(d);
    assert MsgLen(d + " ") == n;
    assert (m.msg + rest)[..n] == m.msg && (m.msg + rest)[n..] == rest;
  }

  lemma TrimLine(msg: string, crlf: bool)
    requires msg != "" && '\n' !in msg && msg[|msg| - 1] != '\r'
    ensures TrimNewline(msg + if crlf then "\r\n" else "\n") == msg
  {
    assert msg[|msg| - 1] != '\n';
    assert TrimNewline(msg) == msg;
    assert (msg + "\n")[..|msg|] == msg;
    assert (msg + "\r\n")[..|msg| + 1] == msg + "\r";
    assert (msg + "\r")[..|msg|] == msg;
  }

  lemma LineFrame(body: string, rest: string)
    requires '\n' !in body && |body| <= MAX_FRAME + 1
    ensures FrameSpec(body + ("\n" + rest), '\n', MAX_FRAME + 2) == Frame(body + "\n", false)
    ensures After(body + ("\n" + rest), Frame(body + "\n", false)) == rest
  {
    var all := body + ("\n" + rest);
    IndexSkip(body, "\n" + rest, '\n');
    assert all[..|body| + 1] == body + "\n";
    assert all[|body| + 1..] == rest;
  }

  lemma LineStep(m: Message, rest: string)
    requires m.Line? && Printable(m)
    ensures Print(m) + rest != "" && NextTurn(Print(m) + rest) == Go([m.msg], rest)
  {
    hide Index, TrimNewline, MsgLen;
    var body := m.msg + if m.crlf then "\r" else "";
    assert Print(m) + rest == body + ("\n" + rest);
    LineFrame(body, rest);
    assert body + "\n" == Print(m);
    TrimLine(m.msg, m.crlf);
    assert (Print(m) + rest)[0] == m.msg[0];
  }

  lemma OneMessage(m: Message, rest: string)
    requires Printable(m)
    ensures Decode(Print(m) + rest) == [m.msg] + Decode(rest)
  {
    if m.Counted? { CountedStep(m, rest); } else { LineStep(m, rest); }
  }

  /** Framing round trip: any mix of octet-counted and newline-framed messages decodes to the same
      messages, and what follows them is decoded as if it stood alone. */
  lemma {:induction false} RoundTrip(ms: seq<Message>, rest: string)
    requires forall i :: 0 <= i < |ms| ==> Printable(ms[i])
    ensures Decode(PrintAll(ms) + rest) == Bodies(ms) + Decode(rest)
  {
    hide Decode, Print;
    if ms == [] {
      assert PrintAll(ms) + rest == rest;
    } else {
      var tail := PrintAll(ms[1..]) + rest;
      assert PrintAll(ms) + rest == Print(ms[0]) + tail;
      OneMessage(ms[0], tail);
      RoundTrip(ms[1..], rest);
      assert [ms[0].msg] + (Bodies(ms[1..]) + Decode(rest)) == Bodies(ms) + Decode(rest);
    }
  }

  lemma RoundTripAll(ms: seq<Message>)
    requires forall i :: 0 <= i < |ms| ==> Printable(ms[i])
    ensures Decode(PrintAll(ms)) == Bodies(ms)
  {
    RoundTrip(ms, "");
    assert PrintAll(ms) + "" == PrintAll(ms);
  }

  /** A last line the peer did not terminate is still delivered. */
  lemma UnterminatedLine(ms: seq<Message>, last: string)
    requires forall i :: 0 <= i < |ms| ==> Printable(ms[i])
    requires Printable(Line(last, false))
    ensures Decode(PrintAll(ms) + last) == Bodies(ms) + [last]
  {
    hide Decode, FrameSpec, NextTurn, TrimNewline;
    RoundTrip(ms, last);
    OpenLine(last);
    assert Decode(last) == [last] by { DecodeTurn(last); }
  }

  lemma OpenLine(last: string)
    requires Printable(Line(last, false))
    ensures last != "" && NextTurn(last) == Stop([last])
  {
    IndexSkip(last, "", '\n');
    assert last + "" == last;
    assert FrameSpec(last, '\n', MAX_FRAME + 2) == Frame(last, true);
    assert last[|last| - 1] != '\n';
    assert TrimNewline(last) == last;
  }

  /** No message ever exceeds the frame limit or is empty, whatever the peer sends. */
  lemma {:induction false} DecodedBounded(data: string)
    ensures forall i :: 0 <= i < |Decode(data)| ==> 0 < |Decode(data)[i]| <= MAX_FRAME
    decreases |data|
  {
    if data != "" {
      var turn := NextTurn(data);
      if turn.Go? { DecodedBounded(turn.rest); }
    }
  }
}
