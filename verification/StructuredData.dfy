/** splitRFC5424StructuredData: find the end of the SD-ELEMENTs in front of a message
    (syslog.go:225-261; sections 6.3 and 6.3.3 of RFC 5424). */
module StructuredData {
  import opened Wrappers
  import opened Text

  datatype Split = Split(sd: string, msg: string) | Malformed

  // ----- what the splitter finds

  /** The position after the ']' that closes an element, reading from `pos`; None if it is never closed. */
  function ElementEnd(s: string, pos: nat, quoted: bool, escaped: bool): (r: Option<nat>)
    requires pos <= |s|
    ensures r.Some? ==> pos < r.value <= |s| && s[r.value - 1] == ']'
    decreases |s| - pos
  {
    if pos == |s| then None
    else if escaped then ElementEnd(s, pos + 1, quoted, false)
    else if s[pos] == '\\' then ElementEnd(s, pos + 1, quoted, true)
    else if s[pos] == '"' then ElementEnd(s, pos + 1, !quoted, false)
    else if s[pos] == ']' && !quoted then Some(pos + 1)
    else ElementEnd(s, pos + 1, quoted, false)
  }

  /** The position after the last of the adjacent elements that start at `pos`. */
  function ElementsEnd(s: string, pos: nat): (r: Option<nat>)
    requires pos < |s| && s[pos] == '['
    ensures r.Some? ==> pos < r.value <= |s| && s[r.value - 1] == ']' && (r.value < |s| ==> s[r.value] != '[')
    decreases |s| - pos
  {
    var end := ElementEnd(s, pos + 1, false, false);
    if end.None? then None
    else if end.value < |s| && s[end.value] == '[' then ElementsEnd(s, end.value)
    else end
  }

  function SplitSpec(s: string): Split
  {
    if s == "" || s[0] != '[' then Split("-", s)
    else
      var end := ElementsEnd(s, 0);
      if end.None? then Malformed else Split(s[..end.value], TrimSpace(s[end.value..]))
  }

  /** The two loops of the splitter. */
  method SplitStructuredData(s: string) returns (r: Split)
    ensures r == SplitSpec(s)
  {
    var pos := 0;
    while pos < |s| && s[pos] == '['
      invariant 0 <= pos <= |s|
      invariant pos > 0 ==> s[0] == '[' && pos < |s| && s[pos] == '[' && ElementsEnd(s, 0) == ElementsEnd(s, pos)
      decreases |s| - pos
    {
      ghost var start := pos;
      pos := pos + 1;
      var quoted, escaped, closed := false, false, false;
      while pos < |s| && !closed
        invariant start < pos <= |s|
        invariant ElementEnd(s, start + 1, false, false) ==
          if closed then Some(pos) else ElementEnd(s, pos, quoted, escaped)
        invariant closed ==> !quoted && !escaped
        decreases |s| - pos, !closed
      {
        var ch := s[pos];
        pos := pos + 1;
        if escaped {
          escaped := false;
        } else if ch == '\\' {
          escaped := true;
        } else if ch == '"' {
          quoted := !quoted;
        } else if ch == ']' && !quoted {
          closed := true;
        }
      }
      if !closed || quoted || escaped { return Malformed; }
      if pos == |s| || s[pos] != '[' { return Split(s[..pos], TrimSpace(s[pos..])); }
    }
    return Split("-", s);
  }

  /** On any input the splitter leaves the input alone, fails, or returns a prefix that ends an
      element and the trimmed rest. */
  lemma SplitIsPrefix(s: string)
    ensures s == "" || s[0] != '[' ==> SplitSpec(s) == Split("-", s)
    ensures s != "" && s[0] == '[' && SplitSpec(s).Split? ==>
      var sd := SplitSpec(s).sd;
      2 <= |sd| <= |s| && sd == s[..|sd|] && sd[|sd| - 1] == ']' && SplitSpec(s).msg == TrimSpace(s[|sd|..])
  {
  }

  // ----- printed structured data

  datatype Param = Param(name: string, value: string)

  datatype Element = Element(id: string, params: seq<Param>)

  /** An SD-NAME (section 6.3.2 of RFC 5424): a backslash is allowed. */
  predicate NameOk(name: string) { forall i :: 0 <= i < |name| ==> name[i] !in {'=', ' ', ']', '"'} }

  /** The name ends in an odd number of backslashes. */
  predicate OddTail(name: string)
    decreases |name|
  {
    name != "" && name[|name| - 1] == '\\' && !OddTail(name[..|name| - 1])
  }

  /** The splitter takes the last backslash of such a name for an escape of the bracket behind it. */
  predicate Hides(e: Element) { e.params == [] && OddTail(e.id) }

  predicate ElementOk(e: Element)
  {
    NameOk(e.id) && forall i :: 0 <= i < |e.params| ==> NameOk(e.params[i].name)
  }

  /** PARAM-VALUE: quote, backslash and closing bracket are escaped. */
  function PrintValue(v: string): string
  {
    if v == "" then "" else (if v[0] in {'"', '\\', ']'} then ['\\', v[0]] else [v[0]]) + PrintValue(v[1..])
  }

  function PrintParam(p: Param): string { " " + p.name + "=\"" + PrintValue(p.value) + "\"" }

  function PrintParams(ps: seq<Param>): string
  {
    if ps == [] then "" else PrintParam(ps[0]) + PrintParams(ps[1..])
  }

  function PrintElement(e: Element): string { "[" + e.id + PrintParams(e.params) + "]" }

  function PrintElements(es: seq<Element>): string
  {
    if es == [] then "" else PrintElement(es[0]) + PrintElements(es[1..])
  }

  /** Reading `part` takes the scanner past it without closing the element; the flags are whether it
      is inside quotes and whether the next byte is escaped. */
  ghost predicate Passes(part: string, quoted: bool, escaped: bool, quoted': bool, escaped': bool)
  {
    forall s: string, pos: nat :: At(s, pos, part) ==>
      ElementEnd(s, pos, quoted, escaped) == ElementEnd(s, pos + |part|, quoted', escaped')
  }

  /** An escaped byte, or one without a meaning of its own. */
  lemma PassesPlain(c: char, quoted: bool, escaped: bool)
    requires escaped || (c != '\\' && c != '"' && (c != ']' || quoted))
    ensures Passes([c], quoted, escaped, quoted, false)
  {
    forall s: string, pos: nat | At(s, pos, [c])
      ensures ElementEnd(s, pos, quoted, escaped) == ElementEnd(s, pos + 1, quoted, false)
    {
      AtByte(s, pos, c);
    }
  }

  lemma PassesBackslash(quoted: bool)
    ensures Passes("\\", quoted, false, quoted, true)
  {
    forall s: string, pos: nat | At(s, pos, "\\")
      ensures ElementEnd(s, pos, quoted, false) == ElementEnd(s, pos + 1, quoted, true)
    {
      AtByte(s, pos, '\\');
    }
  }

  lemma PassesQuote(quoted: bool)
    ensures Passes("\"", quoted, false, !quoted, false)
  {
    forall s: string, pos: nat | At(s, pos, "\"")
      ensures ElementEnd(s, pos, quoted, false) == ElementEnd(s, pos + 1, !quoted, false)
    {
      AtByte(s, pos, '"');
    }
  }

  lemma PassesTwo(a: string, b: string, q0: bool, e0: bool, q1: bool, e1: bool, q2: bool, e2: bool)
    requires Passes(a, q0, e0, q1, e1) && Passes(b, q1, e1, q2, e2)
    ensures Passes(a + b, q0, e0, q2, e2)
  {
    hide ElementEnd;
    forall s: string, pos: nat | At(s, pos, a + b)
      ensures ElementEnd(s, pos, q0, e0) == ElementEnd(s, pos + |a + b|, q2, e2)
    {
      AtSplit(s, pos, a, b);
    }
  }

  lemma PassesNone(quoted: bool)
    ensures Passes("", quoted, false, quoted, false)
  {
  }

  lemma {:induction false} PassesName(name: string)
    requires NameOk(name)
    ensures Passes(name, false, false, false, OddTail(name))
    decreases |name|
  {
    hide Passes;
    if name == "" {
      PassesNone(false);
    } else {
      var init, c := name[..|name| - 1], name[|name| - 1];
      PassesName(init);
      if c == '\\' && !OddTail(init) { PassesBackslash(false); } else { PassesPlain(c, false, OddTail(init)); }
      PassesTwo(init, [c], false, false, false, OddTail(init), false, OddTail(name));
      assert name == init + [c];
    }
  }

  lemma {:induction false} PassesValue(v: string)
    ensures Passes(PrintValue(v), true, false, true, false)
  {
    hide Passes;
    if v == "" {
      PassesNone(true);
    } else {
      var first := if v[0] in {'"', '\\', ']'} then ['\\', v[0]] else [v[0]];
      if v[0] in {'"', '\\', ']'} {
        PassesBackslash(true);
        PassesPlain(v[0], true, true);
        PassesTwo("\\", [v[0]], true, false, true, true, true, false);
        assert "\\" + [v[0]] == first;
      } else {
        PassesPlain(v[0], true, false);
      }
      PassesValue(v[1..]);
      PassesTwo(first, PrintValue(v[1..]), true, false, true, false, true, false);
    }
  }

  /** The space in front of a parameter takes up an escape that is still open. */
  lemma PassesParam(p: Param, escaped: bool)
    requires NameOk(p.name)
    ensures Passes(PrintParam(p), false, escaped, false, false)
  {
    hide Passes;
    var odd, v := OddTail(p.name), PrintValue(p.value);
    PassesPlain(' ', false, escaped);
    PassesName(p.name);
    PassesTwo(" ", p.name, false, escaped, false, false, false, odd);
    PassesPlain('=', false, odd);
    PassesTwo(" " + p.name, "=", false, escaped, false, odd, false, false);
    PassesQuote(false);
    PassesTwo(" " + p.name + "=", "\"", false, escaped, false, false, true, false);
    PassesValue(p.value);
    PassesTwo(" " + p.name + "=" + "\"", v, false, escaped, true, false, true, false);
    PassesQuote(true);
    PassesTwo(" " + p.name + "=" + "\"" + v, "\"", false, escaped, true, false, false, false);
    assert " " + p.name + "=" + "\"" + v + "\"" == PrintParam(p);
  }

  lemma {:induction false} PassesParams(ps: seq<Param>, escaped: bool)
    requires ps != [] && forall i :: 0 <= i < |ps| ==> NameOk(ps[i].name)
    ensures Passes(PrintParams(ps), false, escaped, false, false)
    decreases |ps|
  {
    hide Passes, PrintParam, NameOk;
    PassesParam(ps[0], escaped);
    if |ps| == 1 {
      assert PrintParams(ps[1..]) == "";
      assert PrintParams(ps) == PrintParam(ps[0]);
    } else {
      PassesParams(ps[1..], false);
      PassesTwo(PrintParam(ps[0]), PrintParams(ps[1..]), false, escaped, false, false, false, false);
    }
  }

  /** The inside of an element: the bracket behind it is escaped exactly in an element that hides it. */
  lemma PassesBody(e: Element)
    requires ElementOk(e)
    ensures Passes(e.id + PrintParams(e.params), false, false, false, Hides(e))
  {
    hide Passes, NameOk;
    PassesName(e.id);
    if e.params == [] {
      assert e.id + PrintParams(e.params) == e.id;
    } else {
      PassesParams(e.params, OddTail(e.id));
      PassesTwo(e.id, PrintParams(e.params), false, false, false, OddTail(e.id), false, false);
    }
  }

  /** A printed element is closed by its own last bracket, whatever its values hold, unless it hides
      that bracket; then the scanner goes on behind it. */
  lemma OneElement(s: string, pos: nat, e: Element)
    requires ElementOk(e) && At(s, pos, PrintElement(e))
    ensures var next := pos + |PrintElement(e)|;
      && pos < |s| && s[pos] == '[' && next <= |s|
      && ElementEnd(s, pos + 1, false, false) == if Hides(e) then ElementEnd(s, next, false, false) else Some(next)
  {
    hide ElementEnd, PrintParams, At, NameOk, Hides;
    var body := e.id + PrintParams(e.params);
    assert PrintElement(e) == "[" + (body + "]");
    AtSplit(s, pos, "[", body + "]");
    AtByte(s, pos, '[');
    AtSplit(s, pos + 1, body, "]");
    Closing(s, pos + 1 + |body|);
    PassesBody(e);
  }

  lemma Closing(s: string, pos: nat)
    requires At(s, pos, "]")
    ensures pos < |s| && ElementEnd(s, pos, false, false) == Some(pos + 1)
    ensures ElementEnd(s, pos, false, true) == ElementEnd(s, pos + 1, false, false)
  {
    AtByte(s, pos, ']');
  }

  lemma Opening(s: string, pos: nat)
    requires pos < |s| && s[pos] == '['
    ensures ElementEnd(s, pos, false, false) == ElementEnd(s, pos + 1, false, false)
  {
  }

  /** The elements go on where one is closed, if there is another bracket. */
  lemma ElementsStep(s: string, pos: nat)
    requires pos < |s| && s[pos] == '['
    ensures var end := ElementEnd(s, pos + 1, false, false);
      && (end.None? ==> ElementsEnd(s, pos).None?)
      && (end.Some? && end.value < |s| && s[end.value] == '[' ==> ElementsEnd(s, pos) == ElementsEnd(s, end.value))
      && (end.Some? && (end.value == |s| || s[end.value] != '[') ==> ElementsEnd(s, pos) == end)
      && (end.Some? && ElementsEnd(s, pos).Some? ==> end.value <= ElementsEnd(s, pos).value)
  {
    hide ElementEnd;
  }

  /** The end of the elements: their own end, or one beyond it if the last element hides its bracket. */
  lemma {:induction false} AllElements(s: string, pos: nat, es: seq<Element>)
    requires es != [] && forall i :: 0 <= i < |es| ==> ElementOk(es[i])
    requires At(s, pos, PrintElements(es))
    requires pos + |PrintElements(es)| == |s| || s[pos + |PrintElements(es)|] != '['
    ensures pos < |s| && s[pos] == '['
    ensures var end, mine := ElementsEnd(s, pos), pos + |PrintElements(es)|;
      if Hides(es[|es| - 1]) then end.None? || end.value > mine else end == Some(mine)
    decreases |es|
  {
    hide ElementEnd, ElementsEnd, ElementOk, PrintElement, At, Hides;
    var first, rest := PrintElement(es[0]), PrintElements(es[1..]);
    var next := pos + |first|;
    AtSplit(s, pos, first, rest);
    OneElement(s, pos, es[0]);
    ElementsStep(s, pos);
    if |es| == 1 {
      assert rest == "";
    } else {
      AllElements(s, next, es[1..]);
      assert es[1..][|es| - 2] == es[|es| - 1];
      Opening(s, next);
      ElementsStep(s, next);
    }
  }

  /** Structured data split, exactly: one or more printed elements, followed by the end of the input
      or by anything but another bracket, give those elements and the trimmed message if and only
      if the last element does not hide its bracket. */
  lemma SplitPrintedIff(es: seq<Element>, rest: string)
    requires es != [] && forall i :: 0 <= i < |es| ==> ElementOk(es[i])
    requires rest == "" || rest[0] != '['
    ensures SplitSpec(PrintElements(es) + rest) == Split(PrintElements(es), TrimSpace(rest)) <==> !Hides(es[|es| - 1])
  {
    hide ElementOk, PrintElements, Hides, TrimSpace, ElementsEnd;
    var sd := PrintElements(es);
    var s := sd + rest;
    assert At(s, 0, sd) by { AtAppend(sd, rest); }
    assert s[|sd|..] == rest;
    AllElements(s, 0, es);
    assert s[..|sd|] == sd;
  }

  /** Names without a backslash never hide it. */
  lemma SplitPrinted(es: seq<Element>, rest: string)
    requires es != [] && forall i :: 0 <= i < |es| ==> ElementOk(es[i])
    requires rest == "" || rest[0] != '['
    requires '\\' !in es[|es| - 1].id
    ensures SplitSpec(PrintElements(es) + rest) == Split(PrintElements(es), TrimSpace(rest))
  {
    SplitPrintedIff(es, rest);
  }

  /** Such an element: `[a\]` is never closed. */
  lemma BackslashInName()
    ensures SplitSpec("[a\\]") == Malformed
  {
    var s := "[a\\]";
    assert ElementEnd(s, 4, false, false).None?;
    assert ElementEnd(s, 3, false, true).None?;
    assert ElementEnd(s, 2, false, false).None?;
    assert ElementEnd(s, 1, false, false).None?;
  }
}
