/** LEEF round trip: printing an event with escapes and decoding it gives the event back. */
module LeefPrint {
  import opened Wrappers
  import opened Text
  import opened Leef

  // ----- the printer

  /** Vertical bar and backslash are escaped in a header field. */
  function EscapeField(p: string): string
  {
    if p == "" then "" else (if p[0] in {'|', '\\'} then ['\\', p[0]] else [p[0]]) + EscapeField(p[1..])
  }

  function PrintFields(parts: seq<string>): string
  {
    if parts == [] then "" else EscapeField(parts[0]) + ("|" + PrintFields(parts[1..]))
  }

  /** Delimiter and backslash are escaped in a value; tab, line feed and carriage return may be
      written with letters. */
  function EscapeByte(c: char, d: char, letters: bool): string
  {
    if letters && c == '\t' then "\\t"
    else if letters && c == '\n' then "\\n"
    else if letters && c == '\r' then "\\r"
    else if c == d || c == '\\' then ['\\', c]
    else [c]
  }

  function EscapeValue(v: string, d: char, letters: bool): string
  {
    if v == "" then "" else EscapeByte(v[0], d, letters) + EscapeValue(v[1..], d, letters)
  }

  datatype Pair = Pair(key: string, value: string, letters: bool)

  function PrintPair(p: Pair, d: char): string { p.key + ("=" + EscapeValue(p.value, d, p.letters)) }

  /** The pairs with a delimiter between every two. */
  function PrintPairs(ps: seq<Pair>, d: char): string
  {
    if ps == [] then ""
    else if |ps| == 1 then PrintPair(ps[0], d)
    else PrintPair(ps[0], d) + ([d] + PrintPairs(ps[1..], d))
  }

  /** No escape letter, no backslash, no '='. */
  predicate DelimiterOk(d: char) { d !in {'t', 'n', 'r', '\\', '='} }

  predicate Trimmed(s: string) { s != "" ==> !AsciiSpace(s[0]) && !AsciiSpace(s[|s| - 1]) }

  predicate KeyOk(key: string, d: char) { key != "" && Trimmed(key) && '=' !in key && '\\' !in key && d !in key }

  /** A last byte that survives trimming. */
  predicate EndOk(c: char, letters: bool) { !AsciiSpace(c) || (letters && c in {'\t', '\n', '\r'}) }

  predicate PairOk(p: Pair, d: char)
  {
    KeyOk(p.key, d) && (p.value != "" ==> EndOk(p.value[|p.value| - 1], p.letters))
  }

  predicate PairsOk(ps: seq<Pair>, d: char) { forall i :: 0 <= i < |ps| ==> PairOk(ps[i], d) }

  // ----- the header comes back

  lemma {:induction false} FieldPrinted(s: string, i: nat, parts: seq<string>, cur: string, p: string)
    requires At(s, i, EscapeField(p))
    ensures HeaderFrom(s, i, parts, cur, false) == HeaderFrom(s, i + |EscapeField(p)|, parts, cur + p, false)
    decreases |p|
  {
    hide Complete, HasPrefix, At;
    if p == "" {
      assert cur + p == cur;
    } else {
      var first := if p[0] in {'|', '\\'} then ['\\', p[0]] else [p[0]];
      AtSplit(s, i, first, EscapeField(p[1..]));
      AtSlice(s, i, first);
      FieldPrinted(s, i + |first|, parts, cur + [p[0]], p[1..]);
      assert cur + [p[0]] + p[1..] == cur + p;
    }
  }

  lemma BarPrinted(s: string, i: nat, parts: seq<string>, cur: string)
    requires At(s, i, "|")
    ensures i < |s| && HeaderFrom(s, i, parts, cur, false) ==
      if Complete(parts + [cur]) then Header(parts + [cur], s[i + 1..])
      else HeaderFrom(s, i + 1, parts + [cur], "", false)
  {
    AtByte(s, i, '|');
  }

  lemma {:induction false} FieldsPrinted(s: string, i: nat, done: seq<string>, todo: seq<string>)
    requires At(s, i, PrintFields(todo)) && todo != [] && Complete(done + todo)
    ensures HeaderFrom(s, i, done, "", false) == Header(done + todo, s[i + |PrintFields(todo)|..])
    decreases |todo|
  {
    hide HeaderFrom, HasPrefix, EscapeField, At;
    var first, rest := EscapeField(todo[0]), PrintFields(todo[1..]);
    AtSplit(s, i, first, "|" + rest);
    AtSplit(s, i + |first|, "|", rest);
    FieldPrinted(s, i, done, "", todo[0]);
    BarPrinted(s, i + |first|, done, todo[0]);
    assert "" + todo[0] == todo[0];
    assert (done + todo)[0] == (done + [todo[0]])[0];
    if |todo| == 1 {
      assert done + [todo[0]] == done + todo;
      assert rest == "";
    } else {
      assert done + [todo[0]] + todo[1..] == done + todo;
      FieldsPrinted(s, i + |first| + 1, done + [todo[0]], todo[1..]);
    }
  }

  // ----- the attributes come back

  lemma {:induction false} ValuePrinted(s: string, i: nat, d: char, tokens: seq<string>, cur: string, v: string,
                                        letters: bool)
    requires d != '\\' && At(s, i, EscapeValue(v, d, letters))
    ensures i + |EscapeValue(v, d, letters)| <= |s|
    ensures TokensFrom(s, i, d, tokens, cur, false) ==
      TokensFrom(s, i + |EscapeValue(v, d, letters)|, d, tokens, cur + EscapeValue(v, d, letters), false)
    decreases |v|
  {
    hide At;
    var e := EscapeValue(v, d, letters);
    AtSlice(s, i, e);
    if v == "" {
      assert cur + e == cur;
    } else {
      var first, rest := EscapeByte(v[0], d, letters), EscapeValue(v[1..], d, letters);
      AtSplit(s, i, first, rest);
      BytePrinted(s, i, d, tokens, cur, v[0], letters);
      ValuePrinted(s, i + |first|, d, tokens, cur + first, v[1..], letters);
      assert cur + first + rest == cur + e;
    }
  }

  lemma BytePrinted(s: string, i: nat, d: char, tokens: seq<string>, cur: string, c: char, letters: bool)
    requires d != '\\' && At(s, i, EscapeByte(c, d, letters))
    ensures i + |EscapeByte(c, d, letters)| <= |s|
    ensures TokensFrom(s, i, d, tokens, cur, false) ==
      TokensFrom(s, i + |EscapeByte(c, d, letters)|, d, tokens, cur + EscapeByte(c, d, letters), false)
  {
    hide At;
    AtSlice(s, i, EscapeByte(c, d, letters));
  }

  /** The key and the '=' hold nothing that needs an escape. */
  lemma {:induction false} EscapePlain(a: string, d: char)
    requires '\\' !in a && d !in a
    ensures EscapeValue(a, d, false) == a
  {
    if a != "" { EscapePlain(a[1..], d); }
  }

  function Printed(ps: seq<Pair>, d: char): seq<string>
  {
    if ps == [] then [] else [PrintPair(ps[0], d)] + Printed(ps[1..], d)
  }

  lemma TokensEnd(s: string, d: char, tokens: seq<string>, cur: string)
    requires cur != ""
    ensures TokensFrom(s, |s|, d, tokens, cur, false) == tokens + [cur]
  {
  }

  lemma TokensNext(s: string, i: nat, d: char, tokens: seq<string>, cur: string)
    requires d != '\\' && At(s, i, [d])
    ensures i < |s| && TokensFrom(s, i, d, tokens, cur, false) == TokensFrom(s, i + 1, d, tokens + [cur], "", false)
  {
    AtByte(s, i, d);
  }

  lemma PairToken(s: string, i: nat, d: char, tokens: seq<string>, p: Pair)
    requires DelimiterOk(d) && PairOk(p, d) && At(s, i, PrintPair(p, d))
    ensures i + |PrintPair(p, d)| <= |s|
    ensures TokensFrom(s, i, d, tokens, "", false) ==
      TokensFrom(s, i + |PrintPair(p, d)|, d, tokens, PrintPair(p, d), false)
  {
    hide TokensFrom, EscapeValue, At;
    var head, e := p.key + "=", EscapeValue(p.value, d, p.letters);
    assert PrintPair(p, d) == head + e;
    AtSplit(s, i, head, e);
    EscapePlain(head, d);
    ValuePrinted(s, i, d, tokens, "", head, false);
    ValuePrinted(s, i + |head|, d, tokens, head, p.value, p.letters);
    assert "" + head == head;
  }

  /** The first of several pairs is read up to its delimiter. */
  lemma PairsHead(s: string, i: nat, d: char, tokens: seq<string>, ps: seq<Pair>)
    requires DelimiterOk(d) && PairsOk(ps, d) && |ps| > 1 && At(s, i, PrintPairs(ps, d))
    ensures var first := PrintPair(ps[0], d);
      && i + |first| < |s| && At(s, i + |first| + 1, PrintPairs(ps[1..], d))
      && TokensFrom(s, i, d, tokens, "", false) == TokensFrom(s, i + |first| + 1, d, tokens + [first], "", false)
  {
    hide TokensFrom, EscapeValue, PrintPair, PairOk, At;
    var first, rest := PrintPair(ps[0], d), PrintPairs(ps[1..], d);
    AtSplit(s, i, first, [d] + rest);
    AtSplit(s, i + |first|, [d], rest);
    PairToken(s, i, d, tokens, ps[0]);
    TokensNext(s, i + |first|, d, tokens, first);
  }

  lemma {:induction false} TokensPrinted(s: string, i: nat, d: char, tokens: seq<string>, ps: seq<Pair>)
    requires DelimiterOk(d) && PairsOk(ps, d) && ps != []
    requires At(s, i, PrintPairs(ps, d)) && |s| == i + |PrintPairs(ps, d)|
    ensures TokensFrom(s, i, d, tokens, "", false) == tokens + Printed(ps, d)
    decreases |ps|
  {
    hide TokensFrom, EscapeValue, PrintPair, PairOk, At;
    var first := PrintPair(ps[0], d);
    if |ps| == 1 {
      PairToken(s, i, d, tokens, ps[0]);
      PairTrimmed(ps[0], d);
      TokensEnd(s, d, tokens, first);
      assert Printed(ps, d) == [first];
    } else {
      PairsHead(s, i, d, tokens, ps);
      TokensPrinted(s, i + |first| + 1, d, tokens + [first], ps[1..]);
      assert tokens + [first] + Printed(ps[1..], d) == tokens + Printed(ps, d);
    }
  }

  lemma {:induction false} UnescapePrinted(s: string, i: nat, d: char, out: string, v: string, letters: bool)
    requires DelimiterOk(d) && At(s, i, EscapeValue(v, d, letters)) && |s| == i + |EscapeValue(v, d, letters)|
    ensures UnescapeFrom(s, i, d, out, false) == out + v
    decreases |v|
  {
    hide At;
    if v == "" {
      assert out + v == out;
    } else {
      var first, rest := EscapeByte(v[0], d, letters), EscapeValue(v[1..], d, letters);
      AtSplit(s, i, first, rest);
      UnescapeByte(s, i, d, out, v[0], letters);
      UnescapePrinted(s, i + |first|, d, out + [v[0]], v[1..], letters);
      assert out + [v[0]] + v[1..] == out + v;
    }
  }

  lemma UnescapeByte(s: string, i: nat, d: char, out: string, c: char, letters: bool)
    requires DelimiterOk(d) && At(s, i, EscapeByte(c, d, letters))
    ensures i + |EscapeByte(c, d, letters)| <= |s|
    ensures UnescapeFrom(s, i, d, out, false) == UnescapeFrom(s, i + |EscapeByte(c, d, letters)|, d, out + [c], false)
  {
    hide At;
    var e := EscapeByte(c, d, letters);
    AtSlice(s, i, e);
    assert s[i] == e[0];
    if |e| == 2 {
      assert s[i + 1] == e[1];
      assert Unescaped(e[1], d) == [c];
      assert UnescapeFrom(s, i, d, out, false) == UnescapeFrom(s, i + 1, d, out, true);
      assert UnescapeFrom(s, i + 1, d, out, true) == UnescapeFrom(s, i + 2, d, out + Unescaped(e[1], d), false);
    }
  }

  /** A value comes back from its escaped form. */
  lemma UnescapeEscape(v: string, d: char, letters: bool)
    requires DelimiterOk(d)
    ensures Unescape(EscapeValue(v, d, letters), d) == v
  {
    hide UnescapeFrom, EscapeValue;
    var e := EscapeValue(v, d, letters);
    assert e[0..|e|] == e;
    UnescapePrinted(e, 0, d, "", v, letters);
    assert "" + v == v;
  }

  lemma TrimmedSpace(s: string)
    requires Trimmed(s)
    ensures TrimSpace(s) == s
  {
  }

  lemma {:induction false} EscapeEnd(v: string, d: char, letters: bool)
    requires v != "" && EndOk(v[|v| - 1], letters)
    ensures EscapeValue(v, d, letters) != "" &&
      !AsciiSpace(EscapeValue(v, d, letters)[|EscapeValue(v, d, letters)| - 1])
  {
    if |v| > 1 {
      EscapeEnd(v[1..], d, letters);
    } else {
      assert EscapeValue(v[1..], d, letters) == "";
    }
  }

  lemma PairTrimmed(p: Pair, d: char)
    requires DelimiterOk(d) && PairOk(p, d)
    ensures PrintPair(p, d) != "" && Trimmed(PrintPair(p, d))
  {
    hide EscapeValue;
    EscapeNone(d, p.letters);
    if p.value != "" { EscapeEnd(p.value, d, p.letters); }
  }

  lemma EscapeNone(d: char, letters: bool)
    ensures EscapeValue("", d, letters) == ""
  {
  }

  /** A printed pair adds its value to its key. */
  lemma PairAdded(attrs: Attrs, p: Pair, d: char)
    requires DelimiterOk(d) && PairOk(p, d)
    ensures AddToken(attrs, PrintPair(p, d), d) == Add(attrs, p.key, p.value)
  {
    hide Unescape, EscapeValue, TrimSpace, Index;
    var t := PrintPair(p, d);
    PairTrimmed(p, d);
    TrimmedSpace(t);
    IndexSkip(p.key, "=" + EscapeValue(p.value, d, p.letters), '=');
    FirstByte('=', EscapeValue(p.value, d, p.letters));
    assert t[..|p.key|] == p.key;
    TrimmedSpace(p.key);
    assert t[|p.key| + 1..] == EscapeValue(p.value, d, p.letters);
    UnescapeEscape(p.value, d, p.letters);
  }

  lemma FirstByte(c: char, rest: string)
    ensures Index([c] + rest, c) == 0
  {
  }

  function Collected(attrs: Attrs, ps: seq<Pair>): Attrs
    decreases |ps|
  {
    if ps == [] then attrs else Collected(Add(attrs, ps[0].key, ps[0].value), ps[1..])
  }

  lemma {:induction false} PairsAdded(attrs: Attrs, ps: seq<Pair>, d: char)
    requires DelimiterOk(d) && PairsOk(ps, d)
    ensures AddTokens(attrs, Printed(ps, d), d) == Collected(attrs, ps)
    decreases |ps|
  {
    hide AddToken, PairOk, PrintPair, Add;
    if ps != [] {
      PairAdded(attrs, ps[0], d);
      assert Printed(ps, d)[1..] == Printed(ps[1..], d);
      PairsAdded(Add(attrs, ps[0].key, ps[0].value), ps[1..], d);
    }
  }

  /** The values of a key, in the order printed. */
  function ValuesOf(ps: seq<Pair>, key: string): seq<string>
  {
    if ps == [] then [] else (if ps[0].key == key then [ps[0].value] else []) + ValuesOf(ps[1..], key)
  }

  function Values(attrs: Attrs, key: string): seq<string> { if key in attrs then attrs[key] else [] }

  /** Repeated keys keep all their values in order, and there is no other key. */
  lemma {:induction false} CollectedValues(attrs: Attrs, ps: seq<Pair>, key: string)
    ensures Values(Collected(attrs, ps), key) == Values(attrs, key) + ValuesOf(ps, key)
    ensures key in Collected(attrs, ps) <==> key in attrs || ValuesOf(ps, key) != []
    decreases |ps|
  {
    if ps != [] {
      CollectedValues(Add(attrs, ps[0].key, ps[0].value), ps[1..], key);
      assert Values(attrs, key) + ValuesOf(ps, key) ==
        Values(attrs, key) + (if ps[0].key == key then [ps[0].value] else []) + ValuesOf(ps[1..], key);
    }
  }

  /** Attribute round trip, for every delimiter that is no escape letter, backslash or '='. */
  lemma AttributesPrinted(ps: seq<Pair>, d: char)
    requires DelimiterOk(d) && PairsOk(ps, d)
    ensures AttrsOf(PrintPairs(ps, d), d) == Collected(map[], ps)
  {
    hide PairOk, PrintPair, TokensFrom;
    if ps == [] {
      NoTokens(d);
    } else {
      var s := PrintPairs(ps, d);
      AtAppend(s, "");
      assert s + "" == s;
      TokensPrinted(s, 0, d, [], ps);
      assert [] + Printed(ps, d) == Printed(ps, d);
      PairsAdded(map[], ps, d);
    }
  }

  // ----- the whole event comes back

  /** How the header names the delimiter. */
  datatype Spec = V1 | V2Default | V2Literal(d: char) | V2Hex(prefix: string, d: char)

  predicate SpecOk(spec: Spec)
  {
    match spec
    case V1 => true
    case V2Default => true
    case V2Literal(d) => DelimiterOk(d) && d != 'x' && d != 'X'
    case V2Hex(prefix, d) => DelimiterOk(d) && d as int < 256 && prefix in ["x", "X", "0x", "0X"]
  }

  function DelimiterOf(spec: Spec): char { if spec.V2Literal? || spec.V2Hex? then spec.d else '\t' }

  function Hex(n: nat): char
    requires n < 16
  {
    if n < 10 then ('0' as int + n) as char else ('a' as int + n - 10) as char
  }

  function PrintSpec(spec: Spec): string
    requires SpecOk(spec) && !spec.V1?
  {
    match spec
    case V2Default => ""
    case V2Literal(d) => [d]
    case V2Hex(prefix, d) => prefix + [Hex(d as int / 16), Hex(d as int % 16)]
  }

  lemma HexPair(n: nat)
    requires n < 256
    ensures var s := [Hex(n / 16), Hex(n % 16)]; HexDigit(s[0]) && HexDigit(s[1]) && HexValue(s) == n
  {
    var s := [Hex(n / 16), Hex(n % 16)];
    assert s[..1] == [s[0]];
    assert HexValue("") == 0;
    assert HexValue([s[0]]) == n / 16 by { assert [s[0]][..0] == ""; }
    assert HexValue(s) == n / 16 * 16 + n % 16;
  }

  /** The prefix in lower case, and the digits after it. */
  lemma LowerHex(prefix: string, a: char, b: char)
    requires prefix in ["x", "X", "0x", "0X"] && HexDigit(a) && HexDigit(b)
    ensures LowerAll(prefix + [a, b]) == (if |prefix| == 1 then "x" else "0x") + [a, b]
  {
    var s := prefix + [a, b];
    assert LowerAll([b]) == [b];
    assert [a, b][1..] == [b];
    assert LowerAll([a, b]) == [a, b];
    if |prefix| == 1 {
      assert s[1..] == [a, b];
    } else {
      assert s[1..][1..] == [a, b];
      assert LowerAll(s[1..]) == "x" + [a, b];
    }
  }

  lemma StripHex(digits: string)
    requires |digits| == 2 && HexDigit(digits[0])
    ensures TrimPrefix(TrimPrefix("x" + digits, "0x"), "x") == digits
    ensures TrimPrefix(TrimPrefix("0x" + digits, "0x"), "x") == digits
  {
    assert ("x" + digits)[..1] == "x" && ("x" + digits)[1..] == digits;
    assert ("0x" + digits)[..2] == "0x" && ("0x" + digits)[2..] == digits;
    assert ("x" + digits)[..2][0] == 'x' && "0x"[0] == '0';
    assert digits[..1][0] == digits[0] != "x"[0];
  }

  lemma HexPrinted(prefix: string, n: nat)
    requires prefix in ["x", "X", "0x", "0X"] && n < 256
    ensures ParseDelimiter(prefix + [Hex(n / 16), Hex(n % 16)]) == Some(n as char)
  {
    hide LowerAll, Hex, HexDigit, HexValue, TrimPrefix;
    var a, b := Hex(n / 16), Hex(n % 16);
    HexPair(n);
    LowerHex(prefix, a, b);
    StripHex([a, b]);
    var lower := (if |prefix| == 1 then "x" else "0x") + [a, b];
    assert if |prefix| == 1 then lower[..1] == "x" else lower[..2] == "0x";
  }

  /** The delimiter comes back from every way of naming it. */
  lemma SpecPrinted(spec: Spec)
    requires SpecOk(spec) && !spec.V1?
    ensures ParseDelimiter(PrintSpec(spec)) == Some(DelimiterOf(spec))
  {
    hide ParseDelimiter;
    if spec.V2Hex? {
      HexPrinted(spec.prefix, spec.d as int);
    } else if spec.V2Literal? {
      LiteralPrinted(spec.d);
    } else {
      NoSpec();
    }
  }

  lemma NoSpec()
    ensures ParseDelimiter("") == Some('\t')
  {
  }

  lemma LowerX(c: char)
    ensures Lower(c) == 'x' <==> c == 'x' || c == 'X'
  {
    if 'A' <= c <= 'Z' { assert Lower(c) as int == c as int + 32; }
  }

  lemma LiteralPrinted(d: char)
    requires d != 'x' && d != 'X'
    ensures ParseDelimiter([d]) == Some(d)
  {
    var lower := LowerAll([d]);
    assert [d][1..] == "" && LowerAll("") == "";
    assert lower == [Lower(d)];
    LowerX(d);
    assert lower[0] == Lower(d);
  }

  datatype Head = Head(vendor: string, product: string, productVersion: string, eventId: string)

  function Parts(h: Head, spec: Spec): seq<string>
    requires SpecOk(spec)
  {
    [if spec.V1? then "LEEF:1.0" else "LEEF:2.0", h.vendor, h.product, h.productVersion, h.eventId] +
    if spec.V1? then [] else [PrintSpec(spec)]
  }

  function PrintEvent(h: Head, spec: Spec, ps: seq<Pair>): string
    requires SpecOk(spec)
  {
    PrintFields(Parts(h, spec)) + PrintPairs(ps, DelimiterOf(spec))
  }

  lemma {:induction false} EscapeFieldPlain(p: string)
    requires '|' !in p && '\\' !in p
    ensures EscapeField(p) == p
  {
    if p != "" { EscapeFieldPlain(p[1..]); }
  }

  lemma {:induction false} FieldsEnd(parts: seq<string>)
    requires parts != []
    ensures PrintFields(parts) != "" && PrintFields(parts)[|PrintFields(parts)| - 1] == '|'
    decreases |parts|
  {
    hide EscapeField;
    if |parts| > 1 { FieldsEnd(parts[1..]); } else { assert PrintFields(parts[1..]) == ""; }
  }

  lemma {:induction false} PairsEnd(ps: seq<Pair>, d: char)
    requires DelimiterOk(d) && PairsOk(ps, d) && ps != []
    ensures PrintPairs(ps, d) != "" && !AsciiSpace(PrintPairs(ps, d)[|PrintPairs(ps, d)| - 1])
    decreases |ps|
  {
    hide PrintPair, PairOk, AsciiSpace;
    PairTrimmed(ps[0], d);
    if |ps| > 1 { PairsEnd(ps[1..], d); }
  }

  /** A printed event starts with its version and is not changed by trimming. */
  lemma EventStart(h: Head, spec: Spec, ps: seq<Pair>)
    requires SpecOk(spec) && PairsOk(ps, DelimiterOf(spec))
    ensures var s := PrintEvent(h, spec, ps); HasPrefix(s, "LEEF:") && Trimmed(s)
  {
    hide EscapeField, PrintSpec, PrintPairs;
    var d, parts := DelimiterOf(spec), Parts(h, spec);
    assert DelimiterOk(d);
    EscapeFieldPlain(parts[0]);
    assert PrintFields(parts) == parts[0] + ("|" + PrintFields(parts[1..]));
    FieldsEnd(parts);
    if ps != [] { PairsEnd(ps, d); } else { NoPairs(d); }
  }

  lemma NoPairs(d: char)
    ensures PrintPairs([], d) == ""
  {
  }

  lemma HeadPrinted(h: Head, spec: Spec, ps: seq<Pair>)
    requires SpecOk(spec)
    ensures HeaderFrom(PrintEvent(h, spec, ps), 0, [], "", false) ==
      Header(Parts(h, spec), PrintPairs(ps, DelimiterOf(spec)))
  {
    hide HeaderFrom, PrintFields, PrintPairs, PrintSpec;
    var parts, s := Parts(h, spec), PrintEvent(h, spec, ps);
    AtAppend(PrintFields(parts), PrintPairs(ps, DelimiterOf(spec)));
    assert [] + parts == parts;
    assert Complete(parts) by {
      assert "LEEF:1.0"[..8] == "LEEF:1.0" && "LEEF:2.0"[..8] == "LEEF:2.0" && "LEEF:2.0"[5] != "LEEF:1.0"[5];
    }
    FieldsPrinted(s, 0, [], parts);
    assert s[|PrintFields(parts)|..] == PrintPairs(ps, DelimiterOf(spec));
  }

  /** LEEF round trip: any header fields, any of the ways to name the delimiter, clean keys, values
      without trailing white space.  Only the two size limits refuse a printed event. */
  lemma RoundTrip(h: Head, spec: Spec, ps: seq<Pair>)
    requires SpecOk(spec) && PairsOk(ps, DelimiterOf(spec))
    ensures var s := PrintEvent(h, spec, ps);
      DecodeSpec(s) ==
        if |s| > MAX_PAYLOAD || |Collected(map[], ps)| > MAX_FIELDS then Rejected
        else Record(Event(if spec.V1? then "1.0" else "2.0", h.vendor, h.product, h.productVersion, h.eventId,
                           Collected(map[], ps)))
  {
    hide HeaderFrom, AttrsOf, PrintFields, PrintPairs, PrintSpec, PrintEvent, ParseDelimiter, TrimSpace, PairsOk,
        Collected, Fields;
    var s, d := PrintEvent(h, spec, ps), DelimiterOf(spec);
    assert DelimiterOk(d);
    EventStart(h, spec, ps);
    TrimmedSpace(s);
    assert s[0..] == s;
    HeadPrinted(h, spec, ps);
    if !spec.V1? { SpecPrinted(spec); }
    AttributesPrinted(ps, d);
  }
}
