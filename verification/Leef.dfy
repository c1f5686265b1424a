/** LEEF 1.0 and 2.0 events (leef.go:40-343).  A delimiter is one byte; parseLEEFDelimiter never
    returns an empty one. */
module Leef {
  import opened Wrappers
  import opened Text

  const MAX_PAYLOAD := 10 * 1024 * 1024
  const MAX_FIELDS := 1000

  // ----- the header

  datatype Header = Header(parts: seq<string>, rest: string) | Incomplete(found: nat)

  /** A LEEF 1.0 header has five fields, a LEEF 2.0 header six. */
  predicate Complete(parts: seq<string>)
  {
    && parts != []
    && |parts| == if HasPrefix(parts[0], "LEEF:1.0") then 5 else if HasPrefix(parts[0], "LEEF:2.0") then 6 else 0
  }

  function HeaderFrom(s: string, i: nat, parts: seq<string>, cur: string, escaped: bool): (r: Header)
    requires i <= |s|
    ensures r.Header? ==> |r.parts| in {5, 6}
    decreases |s| - i
  {
    if i == |s| then
      if |parts| == 5 && HasPrefix(parts[0], "LEEF:2.0") then Header(parts, cur) else Incomplete(|parts|)
    else if escaped then
      HeaderFrom(s, i + 1, parts, cur + (if s[i] in {'|', '\\'} then [s[i]] else ['\\', s[i]]), false)
    else if s[i] == '\\' then HeaderFrom(s, i + 1, parts, cur, true)
    else if s[i] == '|' then
      if Complete(parts + [cur]) then Header(parts + [cur], s[i + 1..])
      else HeaderFrom(s, i + 1, parts + [cur], "", false)
    else HeaderFrom(s, i + 1, parts, cur + [s[i]], false)
  }

  method SplitHeader(s: string) returns (r: Header)
    ensures r == HeaderFrom(s, 0, [], "", false)
  {
    hide HasPrefix;
    var parts: seq<string>, cur, escaped, i := [], "", false, 0;
    while i < |s|
      invariant i <= |s| && HeaderFrom(s, 0, [], "", false) == HeaderFrom(s, i, parts, cur, escaped)
    {
      var ch := s[i];
      if escaped {
        assert cur + ['\\'] + [ch] == cur + ['\\', ch];
        if ch != '|' && ch != '\\' { cur := cur + ['\\']; }
        cur, escaped := cur + [ch], false;
      } else if ch == '\\' {
        escaped := true;
      } else if ch == '|' {
        parts, cur := parts + [cur], "";
        if Complete(parts) { return Header(parts, s[i + 1..]); }
      } else {
        cur := cur + [ch];
      }
      i := i + 1;
    }
    if |parts| == 5 && HasPrefix(parts[0], "LEEF:2.0") { return Header(parts, cur); }
    r := Incomplete(|parts|);
  }

  // ----- the delimiter

  function Lower(c: char): char { if 'A' <= c <= 'Z' then (c as int + 32) as char else c }

  function LowerAll(s: string): string { if s == "" then "" else [Lower(s[0])] + LowerAll(s[1..]) }

  predicate HexDigit(c: char) { '0' <= c <= '9' || 'a' <= c <= 'f' }

  function HexValue(s: string): nat
  {
    if s == "" then 0
    else
      var c := s[|s| - 1];
      HexValue(s[..|s| - 1]) * 16 +
        if '0' <= c <= '9' then c as int - '0' as int else if 'a' <= c <= 'f' then c as int - 'a' as int + 10 else 0
  }

  /** parseLEEFDelimiter: empty, hexadecimal, literal, "\t", or the first byte. */
  function ParseDelimiter(spec: string): Option<char>
  {
    var lower := LowerAll(spec);
    if spec == "" then Some('\t')
    else if HasPrefix(lower, "0x") || HasPrefix(lower, "x") then
      var hex := TrimPrefix(TrimPrefix(lower, "0x"), "x");
      if hex != "" && (forall i :: 0 <= i < |hex| ==> HexDigit(hex[i])) && HexValue(hex) < 256 then
        Some(HexValue(hex) as char)
      else None
    else if spec == "\\t" then Some('\t')
    else Some(spec[0])
  }

  // ----- the attributes

  function TokensFrom(s: string, i: nat, d: char, tokens: seq<string>, cur: string, escaped: bool): seq<string>
    requires i <= |s|
    decreases |s| - i
  {
    if i == |s| then if cur != "" || tokens != [] then tokens + [cur] else tokens
    else if escaped then TokensFrom(s, i + 1, d, tokens, cur + ['\\', s[i]], false)
    else if s[i] == '\\' then TokensFrom(s, i + 1, d, tokens, cur, true)
    else if s[i] == d then TokensFrom(s, i + 1, d, tokens + [cur], "", false)
    else TokensFrom(s, i + 1, d, tokens, cur + [s[i]], false)
  }

  method SplitWithEscapes(s: string, d: char) returns (tokens: seq<string>)
    ensures tokens == TokensFrom(s, 0, d, [], "", false)
  {
    var cur, escaped, i := "", false, 0;
    tokens := [];
    while i < |s|
      invariant i <= |s| && TokensFrom(s, 0, d, [], "", false) == TokensFrom(s, i, d, tokens, cur, escaped)
    {
      var ch := s[i];
      if escaped {
        cur, escaped := cur + ['\\', ch], false;
      } else if ch == '\\' {
        escaped := true;
      } else if ch == d {
        tokens, cur := tokens + [cur], "";
      } else {
        cur := cur + [ch];
      }
      i := i + 1;
    }
    if |cur| > 0 || |tokens| > 0 { tokens := tokens + [cur]; }
  }

  /** What an escaped byte stands for. */
  function Unescaped(c: char, d: char): string
  {
    if c == '\\' then "\\"
    else if c == 't' then "\t"
    else if c == 'n' then "\n"
    else if c == 'r' then "\r"
    else if c == d then [c]
    else ['\\', c]
  }

  function UnescapeFrom(s: string, i: nat, d: char, out: string, escaped: bool): string
    requires i <= |s|
    decreases |s| - i
  {
    if i == |s| then if escaped then out + "\\" else out
    else if escaped then UnescapeFrom(s, i + 1, d, out + Unescaped(s[i], d), false)
    else if s[i] == '\\' then UnescapeFrom(s, i + 1, d, out, true)
    else UnescapeFrom(s, i + 1, d, out + [s[i]], false)
  }

  function Unescape(s: string, d: char): string { UnescapeFrom(s, 0, d, "", false) }

  lemma {:induction false} NothingEscaped(s: string, i: nat, d: char)
    requires i <= |s| && '\\' !in s
    ensures UnescapeFrom(s, i, d, s[..i], false) == s
    decreases |s| - i
  {
    if i < |s| {
      assert s[..i + 1] == s[..i] + [s[i]];
      NothingEscaped(s, i + 1, d);
    } else {
      assert s[..i] == s;
    }
  }

  method UnescapeValue(s: string, d: char) returns (out: string)
    ensures out == Unescape(s, d)
  {
    if '\\' !in s {
      NothingEscaped(s, 0, d);
      assert s[..0] == "";
      return s;
    }
    var escaped, i := false, 0;
    out := "";
    while i < |s|
      invariant i <= |s| && Unescape(s, d) == UnescapeFrom(s, i, d, out, escaped)
    {
      var ch := s[i];
      if escaped {
        out, escaped := out + Unescaped(ch, d), false;
      } else if ch == '\\' {
        escaped := true;
      } else {
        out := out + [ch];
      }
      i := i + 1;
    }
    if escaped { out := out + "\\"; }
  }

  /** The attributes: one value is stored as itself, several as a list in order. */
  type Attrs = map<string, seq<string>>

  function Add(attrs: Attrs, key: string, value: string): Attrs
  {
    attrs[key := (if key in attrs then attrs[key] else []) + [value]]
  }

  /** What one token adds: nothing without a key in front of its '='. */
  function AddToken(attrs: Attrs, token: string, d: char): Attrs
  {
    var t := TrimSpace(token);
    var eq := Index(t, '=');
    if t == "" || eq == 0 || eq == |t| || TrimSpace(t[..eq]) == "" then attrs
    else Add(attrs, TrimSpace(t[..eq]), Unescape(t[eq + 1..], d))
  }

  function AddTokens(attrs: Attrs, tokens: seq<string>, d: char): Attrs
    decreases |tokens|
  {
    if tokens == [] then attrs else AddTokens(AddToken(attrs, tokens[0], d), tokens[1..], d)
  }

  function AttrsOf(s: string, d: char): Attrs { AddTokens(map[], TokensFrom(s, 0, d, [], "", false), d) }

  method ParseAttributes(s: string, d: char) returns (attrs: Attrs)
    ensures attrs == AttrsOf(s, d)
  {
    hide TokensFrom, TrimSpace, Index, Unescape;
    attrs := map[];
    if s == "" { NoTokens(d); return; }
    var tokens := SplitWithEscapes(s, d);
    var i := 0;
    while i < |tokens|
      invariant i <= |tokens| && AttrsOf(s, d) == AddTokens(attrs, tokens[i..], d)
    {
      assert tokens[i..][1..] == tokens[i + 1..];
      ghost var next := AddToken(attrs, tokens[i], d);
      var trimmed := TrimSpace(tokens[i]);
      if trimmed != "" {
        var eq := Index(trimmed, '=');
        if 0 < eq < |trimmed| {
          var key := TrimSpace(trimmed[..eq]);
          if key != "" {
            var val := UnescapeValue(trimmed[eq + 1..], d);
            assert [] + [val] == [val];
            if key in attrs { attrs := attrs[key := attrs[key] + [val]]; } else { attrs := attrs[key := [val]]; }
          }
        }
      }
      assert attrs == next;
      i := i + 1;
    }
  }

  lemma NoTokens(d: char)
    ensures AttrsOf("", d) == map[]
  {
  }

  // ----- the whole event

  datatype Event = Event(version: string, vendor: string, product: string, productVersion: string, eventId: string,
                         attrs: Attrs)

  /** The record's fields: the four header fields, overridden by attributes of the same name. */
  function Fields(e: Event): Attrs
  {
    map["vendor" := [e.vendor], "product" := [e.product], "product_version" := [e.productVersion],
        "event_id" := [e.eventId]] + e.attrs
  }

  datatype Decoded = Decoded(event: Event, fields: Attrs) | Rejected

  function Record(e: Event): Decoded { Decoded(e, Fields(e)) }

  /** strings.Index. */
  function Find(s: string, p: string): (r: Option<nat>)
    ensures r.Some? ==> r.value <= |s|
    decreases |s|
  {
    if HasPrefix(s, p) then Some(0)
    else if s == "" then None
    else
      var r := Find(s[1..], p);
      if r.None? then None else Some(r.value + 1)
  }

  /** The event of a complete header. */
  function EventOf(parts: seq<string>, rest: string): Decoded
    requires |parts| in {5, 6}
  {
    var version := TrimPrefix(parts[0], "LEEF:");
    var d := if version == "2.0" && |parts| == 6 then ParseDelimiter(parts[5]) else Some('\t');
    if version !in {"1.0", "2.0"} || d.None? || |AttrsOf(rest, d.value)| > MAX_FIELDS then Rejected
    else Record(Event(version, parts[1], parts[2], parts[3], parts[4], AttrsOf(rest, d.value)))
  }

  function DecodeSpec(raw: string): Decoded
  {
    var s := TrimSpace(raw);
    var start := Find(s, "LEEF:");
    if |raw| > MAX_PAYLOAD || start.None? then Rejected
    else
      var h := HeaderFrom(s[start.value..], 0, [], "", false);
      if h.Incomplete? then Rejected else EventOf(h.parts, h.rest)
  }

  method Decode(raw: string) returns (r: Decoded)
    ensures r == DecodeSpec(raw)
  {
    hide HeaderFrom, TrimSpace, Find, AttrsOf, ParseDelimiter;
    if |raw| > MAX_PAYLOAD { return Rejected; }
    var s := TrimSpace(raw);
    var start := Find(s, "LEEF:");
    if start.None? { return Rejected; }
    var h := SplitHeader(s[start.value..]);
    if h.Incomplete? { return Rejected; }
    var version := TrimPrefix(h.parts[0], "LEEF:");
    if version != "1.0" && version != "2.0" { return Rejected; }
    var d := '\t';
    if version == "2.0" && |h.parts| == 6 {
      var p := ParseDelimiter(h.parts[5]);
      if p.None? { return Rejected; }
      d := p.value;
    }
    var attrs := ParseAttributes(h.rest, d);
    if |attrs| > MAX_FIELDS { return Rejected; }
    var fields: Attrs := map["vendor" := [h.parts[1]], "product" := [h.parts[2]], "product_version" := [h.parts[3]],
                             "event_id" := [h.parts[4]]];
    fields := fields + attrs;
    r := Decoded(Event(version, h.parts[1], h.parts[2], h.parts[3], h.parts[4], attrs), fields);
  }
}
