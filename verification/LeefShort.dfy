/** The LEEF 2.0 header that names no delimiter (leef.go:166-169): the attributes are what the header
    loop has collected when the input ends, so they pass through the header's own unescaping. */
module LeefShort {
  import opened Text
  import opened Leef
  import opened LeefPrint
  import opened LeefCount
  import opened LeefTwice

  function ShortParts(h: Head): seq<string>
  {
    ["LEEF:2.0", h.vendor, h.product, h.productVersion, h.eventId]
  }

  function PrintShort(h: Head, ps: seq<Pair>): string { PrintFields(ShortParts(h)) + PrintPairs(ps, '\t') }

  /** No bar, and no backslash that the second reading would take for an escape. */
  predicate PairSafe(p: Pair) { '|' !in p.key && '|' !in p.value && Survives(p.value, p.letters) }

  predicate ShortSafe(ps: seq<Pair>) { forall i :: 0 <= i < |ps| ==> PairSafe(ps[i]) }

  predicate NoBar(ps: seq<Pair>) { forall i :: 0 <= i < |ps| ==> '|' !in ps[i].key && '|' !in ps[i].value }

  // ----- the header loop

  predicate ShortHead(parts: seq<string>) { parts != [] && parts[0] == "LEEF:2.0" && |parts| <= 5 }

  lemma NotComplete(parts: seq<string>)
    requires ShortHead(parts)
    ensures !Complete(parts) && HasPrefix(parts[0], "LEEF:2.0")
    ensures |parts| == 5 ==> forall cur :: Complete(parts + [cur])
  {
    assert "LEEF:2.0"[..8] == "LEEF:2.0" && "LEEF:2.0"[5] != "LEEF:1.0"[5];
    forall cur | |parts| == 5
      ensures Complete(parts + [cur])
    {
      assert (parts + [cur])[0] == parts[0];
    }
  }

  lemma {:induction false} FieldsPassed(s: string, i: nat, done: seq<string>, todo: seq<string>)
    requires At(s, i, PrintFields(todo)) && ShortHead(done + todo)
    ensures i + |PrintFields(todo)| <= |s|
    ensures HeaderFrom(s, i, done, "", false) == HeaderFrom(s, i + |PrintFields(todo)|, done + todo, "", false)
    decreases |todo|
  {
    hide HeaderFrom, HasPrefix, EscapeField, At, Complete;
    AtSlice(s, i, PrintFields(todo));
    if todo == [] {
      assert done + todo == done;
    } else {
      var first, rest := EscapeField(todo[0]), PrintFields(todo[1..]);
      AtSplit(s, i, first, "|" + rest);
      AtSplit(s, i + |first|, "|", rest);
      FieldPrinted(s, i, done, "", todo[0]);
      BarPrinted(s, i + |first|, done, todo[0]);
      assert "" + todo[0] == todo[0];
      assert (done + todo)[0] == (done + [todo[0]])[0];
      NotComplete(done + [todo[0]]);
      assert done + [todo[0]] + todo[1..] == done + todo;
      FieldsPassed(s, i + |first| + 1, done + [todo[0]], todo[1..]);
    }
  }

  /** The header loop hands on the image of a printed byte. */
  lemma BytePassed(s: string, i: nat, parts: seq<string>, cur: string, c: char, letters: bool)
    requires c != '|' && At(s, i, EscapeByte(c, '\t', letters))
    ensures i + |EscapeByte(c, '\t', letters)| <= |s|
    ensures HeaderFrom(s, i, parts, cur, false) ==
      HeaderFrom(s, i + |EscapeByte(c, '\t', letters)|, parts, cur + ImageByte(c, letters), false)
  {
    hide At, Complete;
    var e := EscapeByte(c, '\t', letters);
    AtSlice(s, i, e);
    assert s[i] == e[0];
    if |e| == 2 {
      assert s[i + 1] == e[1] && e == ['\\', e[1]];
      assert HeaderFrom(s, i, parts, cur, false) == HeaderFrom(s, i + 1, parts, cur, true);
      assert c != '\\' ==> e[1] !in {'|', '\\'};
    }
  }

  lemma {:induction false} ValuePassed(s: string, i: nat, parts: seq<string>, cur: string, v: string, letters: bool)
    requires '|' !in v && At(s, i, EscapeValue(v, '\t', letters))
    ensures i + |EscapeValue(v, '\t', letters)| <= |s|
    ensures HeaderFrom(s, i, parts, cur, false) ==
      HeaderFrom(s, i + |EscapeValue(v, '\t', letters)|, parts, cur + Image(v, letters), false)
    decreases |v|
  {
    hide HeaderFrom, EscapeByte, ImageByte, At;
    AtSlice(s, i, EscapeValue(v, '\t', letters));
    if v == "" {
      assert cur + Image(v, letters) == cur;
    } else {
      var first, image := EscapeByte(v[0], '\t', letters), ImageByte(v[0], letters);
      AtSplit(s, i, first, EscapeValue(v[1..], '\t', letters));
      BytePassed(s, i, parts, cur, v[0], letters);
      ValuePassed(s, i + |first|, parts, cur + image, v[1..], letters);
      assert cur + image + Image(v[1..], letters) == cur + Image(v, letters);
    }
  }

  /** Text without bar and backslash is handed on as it is. */
  lemma {:induction false} PlainPassed(s: string, i: nat, parts: seq<string>, cur: string, a: string)
    requires '|' !in a && '\\' !in a && At(s, i, a)
    ensures i + |a| <= |s|
    ensures HeaderFrom(s, i, parts, cur, false) == HeaderFrom(s, i + |a|, parts, cur + a, false)
    decreases |a|
  {
    hide At, Complete;
    AtSlice(s, i, a);
    if a == "" {
      assert cur + a == cur;
    } else {
      assert a == [a[0]] + a[1..];
      AtSplit(s, i, [a[0]], a[1..]);
      PlainPassed(s, i + 1, parts, cur + [a[0]], a[1..]);
      assert cur + [a[0]] + a[1..] == cur + a;
    }
  }

  function ImagePair(p: Pair): string { p.key + "=" + Image(p.value, p.letters) }

  function ImagePairs(ps: seq<Pair>): string
  {
    if ps == [] then ""
    else if |ps| == 1 then ImagePair(ps[0])
    else ImagePair(ps[0]) + ("\t" + ImagePairs(ps[1..]))
  }

  lemma PairParts(s: string, i: nat, p: Pair)
    requires At(s, i, PrintPair(p, '\t'))
    ensures i + |PrintPair(p, '\t')| <= |s| && At(s, i, p.key) && At(s, i + |p.key|, "=")
    ensures At(s, i + |p.key| + 1, EscapeValue(p.value, '\t', p.letters))
  {
    hide EscapeValue, At;
    AtSlice(s, i, PrintPair(p, '\t'));
    AtSplit(s, i, p.key, "=" + EscapeValue(p.value, '\t', p.letters));
    AtSplit(s, i + |p.key|, "=", EscapeValue(p.value, '\t', p.letters));
  }

  lemma PairPassed(s: string, i: nat, parts: seq<string>, cur: string, p: Pair)
    requires '|' !in p.key && '\\' !in p.key && '|' !in p.value && At(s, i, PrintPair(p, '\t'))
    ensures i + |PrintPair(p, '\t')| <= |s|
    ensures HeaderFrom(s, i, parts, cur, false) ==
      HeaderFrom(s, i + |PrintPair(p, '\t')|, parts, cur + ImagePair(p), false)
  {
    hide HeaderFrom, EscapeValue, At;
    PairParts(s, i, p);
    PlainPassed(s, i, parts, cur, p.key);
    PlainPassed(s, i + |p.key|, parts, cur + p.key, "=");
    ValuePassed(s, i + |p.key| + 1, parts, cur + p.key + "=", p.value, p.letters);
    assert cur + p.key + "=" + Image(p.value, p.letters) == cur + ImagePair(p);
  }

  lemma {:induction false} PairsPassed(s: string, i: nat, parts: seq<string>, cur: string, ps: seq<Pair>)
    requires PairsOk(ps, '\t') && NoBar(ps) && At(s, i, PrintPairs(ps, '\t'))
    ensures i + |PrintPairs(ps, '\t')| <= |s|
    ensures HeaderFrom(s, i, parts, cur, false) ==
      HeaderFrom(s, i + |PrintPairs(ps, '\t')|, parts, cur + ImagePairs(ps), false)
    decreases |ps|
  {
    hide HeaderFrom, PrintPair, ImagePair, At;
    AtSlice(s, i, PrintPairs(ps, '\t'));
    if ps == [] {
      assert cur + ImagePairs(ps) == cur;
    } else {
      KeySlashFree(ps);
      if |ps| == 1 {
        PairPassed(s, i, parts, cur, ps[0]);
      } else {
        var first, rest := PrintPair(ps[0], '\t'), PrintPairs(ps[1..], '\t');
        AtSplit(s, i, first, "\t" + rest);
        AtSplit(s, i + |first|, "\t", rest);
        PairPassed(s, i, parts, cur, ps[0]);
        PlainPassed(s, i + |first|, parts, cur + ImagePair(ps[0]), "\t");
        PairsPassed(s, i + |first| + 1, parts, cur + ImagePair(ps[0]) + "\t", ps[1..]);
        assert cur + ImagePair(ps[0]) + "\t" + ImagePairs(ps[1..]) == cur + ImagePairs(ps);
      }
    }
  }

  lemma KeySlashFree(ps: seq<Pair>)
    requires PairsOk(ps, '\t') && ps != []
    ensures '\\' !in ps[0].key && '\t' !in ps[0].key && PairOk(ps[0], '\t') && PairsOk(ps[1..], '\t')
  {
  }

  // ----- a bar ends the header

  /** The header loop has met a bar at or after `i` and taken what follows it for the attributes. */
  ghost predicate Barred(s: string, i: nat, r: Header)
  {
    r.Header? && |r.parts| == 6 && exists j :: i <= j < |s| && s[j] == '|' && r.rest == s[j + 1..]
  }

  lemma BarFound(s: string, i: nat, parts: seq<string>, cur: string)
    requires At(s, i, "|") && ShortHead(parts) && |parts| == 5
    ensures i < |s| && Barred(s, i, HeaderFrom(s, i, parts, cur, false))
  {
    hide HeaderFrom, Complete;
    AtByte(s, i, '|');
    BarPrinted(s, i, parts, cur);
    NotComplete(parts);
  }

  lemma {:induction false} ValueBarred(s: string, i: nat, parts: seq<string>, cur: string, v: string, letters: bool)
    requires '|' in v && At(s, i, EscapeValue(v, '\t', letters)) && ShortHead(parts) && |parts| == 5
    ensures i <= |s| && Barred(s, i, HeaderFrom(s, i, parts, cur, false))
    decreases |v|
  {
    hide HeaderFrom, ImageByte, EscapeByte, At, Barred, ShortHead;
    AtSlice(s, i, EscapeValue(v, '\t', letters));
    var first := EscapeByte(v[0], '\t', letters);
    AtSplit(s, i, first, EscapeValue(v[1..], '\t', letters));
    if v[0] == '|' {
      BarByte(letters);
      BarFound(s, i, parts, cur);
    } else {
      BytePassed(s, i, parts, cur, v[0], letters);
      ValueBarred(s, i + |first|, parts, cur + ImageByte(v[0], letters), v[1..], letters);
      BarredEarlier(s, i, i + |first|, HeaderFrom(s, i, parts, cur, false));
    }
  }

  lemma BarByte(letters: bool)
    ensures EscapeByte('|', '\t', letters) == "|"
  {
  }

  lemma {:induction false} PlainBarred(s: string, i: nat, parts: seq<string>, cur: string, a: string)
    requires '|' in a && '\\' !in a && At(s, i, a) && ShortHead(parts) && |parts| == 5
    ensures i <= |s| && Barred(s, i, HeaderFrom(s, i, parts, cur, false))
    decreases |a|
  {
    hide HeaderFrom, At;
    AtSlice(s, i, a);
    assert a == [a[0]] + a[1..];
    AtSplit(s, i, [a[0]], a[1..]);
    if a[0] == '|' {
      BarFound(s, i, parts, cur);
    } else {
      PlainPassed(s, i, parts, cur, [a[0]]);
      PlainBarred(s, i + 1, parts, cur + [a[0]], a[1..]);
    }
  }

  lemma PairBarred(s: string, i: nat, parts: seq<string>, cur: string, p: Pair)
    requires ('|' in p.key || '|' in p.value) && '\\' !in p.key
    requires At(s, i, PrintPair(p, '\t')) && ShortHead(parts) && |parts| == 5
    ensures i <= |s| && Barred(s, i, HeaderFrom(s, i, parts, cur, false))
  {
    hide HeaderFrom, EscapeValue, At;
    PairParts(s, i, p);
    if '|' in p.key {
      PlainBarred(s, i, parts, cur, p.key);
    } else {
      PlainPassed(s, i, parts, cur, p.key);
      PlainPassed(s, i + |p.key|, parts, cur + p.key, "=");
      ValueBarred(s, i + |p.key| + 1, parts, cur + p.key + "=", p.value, p.letters);
    }
  }

  lemma BarredEarlier(s: string, i: nat, j: nat, r: Header)
    requires i <= j && Barred(s, j, r)
    ensures Barred(s, i, r)
  {
  }

  lemma {:induction false} PairsBarred(s: string, i: nat, parts: seq<string>, cur: string, ps: seq<Pair>)
    requires PairsOk(ps, '\t') && !NoBar(ps) && At(s, i, PrintPairs(ps, '\t')) && ShortHead(parts) && |parts| == 5
    ensures i <= |s| && Barred(s, i, HeaderFrom(s, i, parts, cur, false))
    decreases |ps|
  {
    hide HeaderFrom, PrintPair, ImagePair, At, PairsOk, Barred, ShortHead;
    AtSlice(s, i, PrintPairs(ps, '\t'));
    KeySlashFree(ps);
    if |ps| == 1 {
      PairBarred(s, i, parts, cur, ps[0]);
    } else {
      var first, rest := PrintPair(ps[0], '\t'), PrintPairs(ps[1..], '\t');
      AtSplit(s, i, first, "\t" + rest);
      AtSplit(s, i + |first|, "\t", rest);
      if '|' in ps[0].key || '|' in ps[0].value {
        PairBarred(s, i, parts, cur, ps[0]);
      } else {
        PairPassed(s, i, parts, cur, ps[0]);
        PlainPassed(s, i + |first|, parts, cur + ImagePair(ps[0]), "\t");
        BarLater(ps);
        PairsBarred(s, i + |first| + 1, parts, cur + ImagePair(ps[0]) + "\t", ps[1..]);
        BarredEarlier(s, i, i + |first| + 1, HeaderFrom(s, i, parts, cur, false));
      }
    }
  }

  lemma BarLater(ps: seq<Pair>)
    requires ps != [] && !NoBar(ps) && '|' !in ps[0].key && '|' !in ps[0].value
    ensures !NoBar(ps[1..])
  {
    if NoBar(ps[1..]) {
      forall i | 0 <= i < |ps| ensures '|' !in ps[i].key && '|' !in ps[i].value {
        if i > 0 { assert ps[i] == ps[1..][i - 1]; }
      }
    }
  }

  lemma HeadEnds(s: string, parts: seq<string>, cur: string)
    requires ShortHead(parts) && |parts| == 5
    ensures HeaderFrom(s, |s|, parts, cur, false) == Header(parts, cur)
  {
    NotComplete(parts);
  }

  /** What the header loop returns: the image of the attributes, or, at a bar, a sixth field and less
      than the attributes. */
  lemma ShortHeader(h: Head, ps: seq<Pair>)
    requires PairsOk(ps, '\t')
    ensures var r := HeaderFrom(PrintShort(h, ps), 0, [], "", false);
      if NoBar(ps) then r == Header(ShortParts(h), ImagePairs(ps))
      else r.Header? && |r.parts| == 6 && Bytes(r.rest) < Bytes(PrintPairs(ps, '\t'))
  {
    hide HeaderFrom, PrintFields, PrintPairs, PairsOk, NoBar, ImagePairs, Bytes;
    var parts, attrs, s := ShortParts(h), PrintPairs(ps, '\t'), PrintShort(h, ps);
    var i := |PrintFields(parts)|;
    AtAppend(PrintFields(parts), attrs);
    assert [] + parts == parts;
    FieldsPassed(s, 0, [], parts);
    if NoBar(ps) {
      PairsPassed(s, i, parts, "", ps);
      assert "" + ImagePairs(ps) == ImagePairs(ps);
      HeadEnds(s, parts, ImagePairs(ps));
    } else {
      PairsBarred(s, i, parts, "", ps);
      var j :| i <= j < |s| && s[j] == '|' && HeaderFrom(s, i, parts, "", false).rest == s[j + 1..];
      BytesBehind(s, i, j);
      assert s[i..] == attrs;
    }
  }

  // ----- the token loop on the image

  function TokLen(t: string): (n: nat)
    ensures n <= |t| && (n < |t| ==> t[n] == '\t')
  {
    if t == "" || t[0] == '\t' then 0
    else if t == "\\" then 1
    else if t[0] == '\\' then 2 + TokLen(t[2..])
    else 1 + TokLen(t[1..])
  }

  lemma TokStep(t: string)
    requires t != "" && t[0] != '\t' && t != "\\"
    ensures var k := if t[0] == '\\' then 2 else 1;
      k <= |t| && Tok(t) == t[..k] + Tok(t[k..]) && TokLen(t) == k + TokLen(t[k..])
  {
    if t[0] != '\\' { assert t[..1] == [t[0]]; }
  }

  lemma TokensStep(s: string, i: nat, tokens: seq<string>, cur: string)
    requires i < |s| && s[i] != '\t' && (s[i] == '\\' ==> i + 1 < |s|)
    ensures var k := if s[i] == '\\' then 2 else 1;
      TokensFrom(s, i, '\t', tokens, cur, false) == TokensFrom(s, i + k, '\t', tokens, cur + s[i..i + k], false)
  {
    if s[i] == '\\' {
      assert s[i..i + 2] == ['\\', s[i + 1]];
      assert TokensFrom(s, i, '\t', tokens, cur, false) == TokensFrom(s, i + 1, '\t', tokens, cur, true);
    } else {
      assert s[i..i + 1] == [s[i]];
    }
  }

  lemma TokensStop(s: string, i: nat, tokens: seq<string>, cur: string)
    requires i <= |s| && (cur != "" || tokens != []) && (s[i..] == "" || s[i..] == "\\" || s[i] == '\t')
    ensures TokensFrom(s, i, '\t', tokens, cur, false) ==
      if i == |s| || s[i] != '\t' then tokens + [cur] else TokensFrom(s, i + 1, '\t', tokens + [cur], "", false)
  {
    if s[i..] == "\\" { assert s[i] == s[i..][0] && i + 1 == |s|; }
  }

  /** The first token, and where the next one starts. */
  lemma {:induction false} FirstToken(s: string, i: nat, tokens: seq<string>, cur: string)
    requires i <= |s| && (cur + Tok(s[i..]) != "" || tokens != [])
    ensures var t, n := cur + Tok(s[i..]), TokLen(s[i..]);
      TokensFrom(s, i, '\t', tokens, cur, false) ==
        if i + n == |s| then tokens + [t] else TokensFrom(s, i + n + 1, '\t', tokens + [t], "", false)
    decreases |s| - i
  {
    hide TokensFrom;
    var t := s[i..];
    if t == "" || t[0] == '\t' || t == "\\" {
      assert cur + "" == cur;
      TokensStop(s, i, tokens, cur);
    } else {
      var k := if t[0] == '\\' then 2 else 1;
      TokStep(t);
      hide Tok, TokLen;
      TokensStep(s, i, tokens, cur);
      assert t[k..] == s[i + k..] && t[..k] == s[i..i + k];
      assert cur + t[..k] + Tok(t[k..]) == cur + Tok(t);
      FirstToken(s, i + k, tokens, cur + t[..k]);
    }
  }

  /** The tokens only grow. */
  lemma {:induction false} TokensGrow(s: string, i: nat, tokens: seq<string>, cur: string, escaped: bool)
    requires i <= |s|
    ensures tokens <= TokensFrom(s, i, '\t', tokens, cur, escaped)
    decreases |s| - i
  {
    if i < |s| {
      if escaped { TokensGrow(s, i + 1, tokens, cur + ['\\', s[i]], false); }
      else if s[i] == '\\' { TokensGrow(s, i + 1, tokens, cur, true); }
      else if s[i] == '\t' { TokensGrow(s, i + 1, tokens + [cur], "", false); }
      else { TokensGrow(s, i + 1, tokens, cur + [s[i]], false); }
    }
  }

  lemma {:induction false} TokPlain(a: string, t: string)
    requires '\\' !in a && '\t' !in a
    ensures Tok(a + t) == a + Tok(t) && TokLen(a + t) == |a| + TokLen(t)
  {
    if a == "" {
      assert a + t == t;
    } else {
      assert (a + t)[1..] == a[1..] + t;
      TokPlain(a[1..], t);
    }
  }

  /** A value that survives is read whole and comes back. */
  lemma {:induction false} TokImage(v: string, letters: bool, tail: string)
    requires Survives(v, letters) && TailOk(tail)
    ensures Tok(Image(v, letters) + tail) == Image(v, letters) &&
      TokLen(Image(v, letters) + tail) == |Image(v, letters)|
    ensures Un(Image(v, letters)) == v
    decreases |v|
  {
    hide Survives, Follows, Tok, TokLen, Un, ImageByte, Image;
    if v == "" {
      ImageNone(letters, tail);
      TokNone(tail);
    } else {
      SurvivesTail(v, letters);
      var k := if v[0] == '\\' then 2 else 1;
      var e, x := FirstUnit(v, letters);
      TokImage(v[k..], letters, tail);
      assert e + x + tail == e + (x + tail);
      UnitRead(e, x + tail, x);
      assert v == v[..k] + v[k..];
    }
  }

  lemma ImageNone(letters: bool, tail: string)
    ensures Image("", letters) == "" && Image("", letters) + tail == tail
  {
  }

  /** The bytes in front of a value that survives: an escape, a plain byte, or a backslash and the byte
      it does not change. */
  lemma FirstUnit(v: string, letters: bool) returns (e: string, x: string)
    requires v != "" && (v[0] == '\\' ==> |v| > 1 && Follows(v[1], letters))
    ensures var k := if v[0] == '\\' then 2 else 1;
      && x == Image(v[k..], letters) && Image(v, letters) == e + x
      && ((|e| == 1 && e[0] != '\\' && e[0] != '\t') || (|e| == 2 && e[0] == '\\'))
      && (if |e| == 1 then e else Unescaped(e[1], '\t')) == v[..k]
  {
    if v[0] == '\\' {
      FollowsPlain(v[1], letters);
      e, x := ['\\', v[1]], Image(v[2..], letters);
      assert v[1..][1..] == v[2..];
      assert Image(v[1..], letters) == [v[1]] + x;
      assert "\\" + ([v[1]] + x) == e + x;
      assert v[..2] == ['\\', v[1]];
    } else {
      e, x := ImageByte(v[0], letters), Image(v[1..], letters);
      assert v[..1] == [v[0]];
    }
  }

  lemma TokNone(tail: string)
    requires TailOk(tail)
    ensures Tok(tail) == "" && TokLen(tail) == 0 && Un("") == ""
  {
  }

  lemma FollowsPlain(c: char, letters: bool)
    requires Follows(c, letters)
    ensures ImageByte(c, letters) == [c] && Unescaped(c, '\t') == ['\\', c]
  {
  }

  lemma UnitRead(e: string, t: string, x: string)
    requires (|e| == 1 && e[0] != '\\' && e[0] != '\t') || (|e| == 2 && e[0] == '\\')
    ensures Tok(e + t) == e + Tok(t) && TokLen(e + t) == |e| + TokLen(t)
    ensures Un(e + x) == (if |e| == 1 then e else Unescaped(e[1], '\t')) + Un(x)
  {
    assert (e + t)[|e|..] == t && (e + x)[|e|..] == x;
    if |e| == 2 { assert (e + t)[..2] == e && (e + x)[1] == e[1]; }
  }

  lemma {:induction false} ImageEnd(v: string, letters: bool)
    requires v != "" && EndOk(v[|v| - 1], letters)
    ensures Image(v, letters) != "" && !AsciiSpace(Image(v, letters)[|Image(v, letters)| - 1])
  {
    if |v| > 1 { ImageEnd(v[1..], letters); } else { assert Image(v[1..], letters) == ""; }
  }

  lemma SurvivorRead(p: Pair, tail: string)
    requires PairOk(p, '\t') && Survives(p.value, p.letters) && TailOk(tail)
    ensures Read(Image(p.value, p.letters) + tail) == p.value
    ensures TokLen(Image(p.value, p.letters) + tail) == |Image(p.value, p.letters)|
  {
    hide Survives, Tok, Un, TokLen, KeyOk;
    var x := Image(p.value, p.letters);
    TokImage(p.value, p.letters, tail);
    if p.value != "" { ImageEnd(p.value, p.letters); }
    assert TrimRight(x) == x;
  }

  // ----- a token adds what is read

  lemma TokenAdds(attrs: Attrs, key: string, x: string)
    requires KeyOk(key, '\t')
    ensures AddToken(attrs, key + "=" + x, '\t') == Add(attrs, key, Un(TrimRight(x)))
  {
    hide Unescape, Un, TrimSpace, Index, TrimRight, Trimmed;
    var t, y := key + "=" + x, TrimRight(x);
    TokenTrims(key, x);
    var u := key + "=" + y;
    IndexSkip(key, "=" + y, '=');
    FirstByte('=', y);
    assert u == key + ("=" + y);
    assert u[..|key|] == key;
    assert u[|key| + 1..] == y;
    TrimmedSpace(key);
    UnescapeUn(y);
  }

  lemma TokenTrims(key: string, x: string)
    requires KeyOk(key, '\t')
    ensures TrimSpace(key + "=" + x) == key + "=" + TrimRight(x)
  {
    hide TrimRight;
    var a := key + "=";
    assert TrimLeft(a + x) == a + x;
    TrimRightCat(a, x);
    TrimRightCat(key, "=");
    TrimOne('=');
  }

  // ----- which attributes come back

  function Tail(ps: seq<Pair>): string { if |ps| <= 1 then "" else "\t" + ImagePairs(ps[1..]) }

  lemma TailFits(ps: seq<Pair>)
    requires PairsOk(ps, '\t') && ps != []
    ensures TailOk(Tail(ps)) && ImagePairs(ps) == ps[0].key + "=" + (Image(ps[0].value, ps[0].letters) + Tail(ps))
  {
    hide Image;
    var v := Image(ps[0].value, ps[0].letters);
    assert ps[0].key + "=" + v + Tail(ps) == ps[0].key + "=" + (v + Tail(ps));
    if |ps| == 1 {
      assert v + Tail(ps) == v;
    } else {
      var next := ps[1..];
      assert PairOk(next[0], '\t') by { assert next[0] == ps[1]; }
      assert ImagePairs(next) != "" && ImagePairs(next)[0] == next[0].key[0];
      assert Tail(ps)[1] == ImagePairs(next)[0];
    }
  }

  /** The first token of the image: the key, and the value as it is read. */
  lemma FirstPair(s: string, i: nat, tokens: seq<string>, ps: seq<Pair>)
    requires PairsOk(ps, '\t') && ps != [] && i <= |s| && s[i..] == ImagePairs(ps)
    ensures var p, rest := ps[0], Image(ps[0].value, ps[0].letters) + Tail(ps);
      var t, n := p.key + "=" + Tok(rest), |p.key| + 1 + TokLen(rest);
      TokensFrom(s, i, '\t', tokens, "", false) ==
        if i + n == |s| then tokens + [t] else TokensFrom(s, i + n + 1, '\t', tokens + [t], "", false)
  {
    hide TokensFrom, Tok, TokLen, Image, ImagePairs, Tail;
    KeySlashFree(ps);
    TailFits(ps);
    var head, rest := ps[0].key + "=", Image(ps[0].value, ps[0].letters) + Tail(ps);
    TokPlain(head, rest);
    assert "" + (head + Tok(rest)) == head + Tok(rest);
    FirstToken(s, i, tokens, "");
  }

  /** The attributes come back exactly when every value survives. */
  lemma {:induction false} ImageAttrs(s: string, i: nat, tokens: seq<string>, ps: seq<Pair>, attrs: Attrs)
    requires PairsOk(ps, '\t') && ps != [] && i <= |s| && s[i..] == ImagePairs(ps)
    requires attrs == AddTokens(map[], tokens, '\t')
    ensures AddTokens(map[], TokensFrom(s, i, '\t', tokens, "", false), '\t') == Collected(attrs, ps) <==>
      AllSurvive(ps)
    decreases |ps|
  {
    hide TokensFrom, Tok, TokLen, Image, Survives, AddTokens, Add, PairOk, PairsOk, Read, ImagePairs, Tail;
    var p, rest := ps[0], Image(ps[0].value, ps[0].letters) + Tail(ps);
    var t, n := p.key + "=" + Tok(rest), |p.key| + 1 + TokLen(rest);
    FirstPair(s, i, tokens, ps);
    FirstAdds(tokens, ps, attrs);
    if Survives(p.value, p.letters) {
      FirstSurvives(ps);
      RightValue(s, i, ps);
      if |ps| > 1 {
        KeySlashFree(ps);
        ImageAttrs(s, i + n + 1, tokens + [t], ps[1..], Add(attrs, p.key, p.value));
      } else {
        NoneLeft(attrs, ps);
      }
    } else {
      TailFits(ps);
      ReadTwice(p.value, p.letters, Tail(ps), 0);
      NoSlashes(p.value);
      FirstBounds(s, i, ps);
      TokensGrow(s, if i + n < |s| then i + n + 1 else |s|, tokens + [t], "", false);
      WrongValue(tokens + [t], TokensFrom(s, i, '\t', tokens, "", false), ps, attrs, Read(rest));
    }
  }

  lemma NoneLeft(attrs: Attrs, ps: seq<Pair>)
    requires |ps| == 1
    ensures Collected(attrs, ps) == Add(attrs, ps[0].key, ps[0].value) && AllSurvive(ps[1..])
  {
    assert Collected(attrs, ps) == Collected(Add(attrs, ps[0].key, ps[0].value), ps[1..]);
  }

  lemma FirstAdds(tokens: seq<string>, ps: seq<Pair>, attrs: Attrs)
    requires PairsOk(ps, '\t') && ps != [] && attrs == AddTokens(map[], tokens, '\t')
    ensures var p, rest := ps[0], Image(ps[0].value, ps[0].letters) + Tail(ps);
      AddTokens(map[], tokens + [p.key + "=" + Tok(rest)], '\t') == Add(attrs, p.key, Read(rest))
  {
    hide AddTokens, AddToken, Tok, Image, Tail, PairsOk;
    var p, rest := ps[0], Image(ps[0].value, ps[0].letters) + Tail(ps);
    KeyIsOk(ps);
    TokenAdds(attrs, p.key, Tok(rest));
    AddTokensLast(map[], tokens, p.key + "=" + Tok(rest), '\t');
  }

  lemma FirstBounds(s: string, i: nat, ps: seq<Pair>)
    requires PairsOk(ps, '\t') && ps != [] && i <= |s| && s[i..] == ImagePairs(ps)
    ensures i + |ps[0].key| + 1 + TokLen(Image(ps[0].value, ps[0].letters) + Tail(ps)) <= |s|
  {
    hide Image, ImagePairs, Tail, PairsOk;
    TailFits(ps);
  }

  /** A first value that survives is read right, and the next token is the next pair. */
  lemma RightValue(s: string, i: nat, ps: seq<Pair>)
    requires PairsOk(ps, '\t') && ps != [] && i <= |s| && s[i..] == ImagePairs(ps)
    requires Survives(ps[0].value, ps[0].letters)
    ensures var rest := Image(ps[0].value, ps[0].letters) + Tail(ps);
      var n := |ps[0].key| + 1 + TokLen(rest);
      && Read(rest) == ps[0].value && (i + n == |s| <==> |ps| == 1)
      && (|ps| > 1 ==> i + n < |s| && s[i + n + 1..] == ImagePairs(ps[1..]))
  {
    hide Survives, TokLen, Image, Read, PairOk;
    TailFits(ps);
    KeySlashFree(ps);
    SurvivorRead(ps[0], Tail(ps));
    if |ps| > 1 { NextPair(s, i, |ImagePair(ps[0])|, ps); }
  }

  predicate AllSurvive(ps: seq<Pair>) { forall i :: 0 <= i < |ps| ==> Survives(ps[i].value, ps[i].letters) }

  lemma KeyIsOk(ps: seq<Pair>)
    requires PairsOk(ps, '\t') && ps != []
    ensures KeyOk(ps[0].key, '\t')
  {
    assert PairOk(ps[0], '\t');
  }

  lemma FirstSurvives(ps: seq<Pair>)
    requires ps != [] && Survives(ps[0].value, ps[0].letters)
    ensures AllSurvive(ps) <==> AllSurvive(ps[1..])
  {
    hide Survives;
    if AllSurvive(ps[1..]) {
      forall i | 0 <= i < |ps| ensures Survives(ps[i].value, ps[i].letters) {
        if i > 0 { assert ps[i] == ps[1..][i - 1]; }
      }
    }
  }

  lemma NextPair(s: string, i: nat, n: nat, ps: seq<Pair>)
    requires |ps| > 1 && i <= |s| && s[i..] == ImagePairs(ps) && n == |ImagePair(ps[0])|
    ensures i + n < |s| && s[i + n + 1..] == ImagePairs(ps[1..])
  {
    hide ImagePair;
    var first, next := ImagePair(ps[0]), ImagePairs(ps[1..]);
    assert s[i..] == first + ("\t" + next);
    assert s[i + n + 1..] == s[i..][n + 1..];
    assert (first + ("\t" + next))[n + 1..] == next;
  }

  lemma {:induction false} AddTokensCat(attrs: Attrs, a: seq<string>, b: seq<string>)
    ensures AddTokens(attrs, a + b, '\t') == AddTokens(AddTokens(attrs, a, '\t'), b, '\t')
    decreases |a|
  {
    hide AddToken;
    if a == [] {
      assert a + b == b;
    } else {
      assert (a + b)[1..] == a[1..] + b;
      AddTokensCat(AddToken(attrs, a[0], '\t'), a[1..], b);
    }
  }

  /** Values are only ever added behind those that are there. */
  lemma {:induction false} ValuesGrow(attrs: Attrs, tokens: seq<string>, key: string)
    ensures Values(attrs, key) <= Values(AddTokens(attrs, tokens, '\t'), key)
    decreases |tokens|
  {
    hide TrimSpace, Index, Unescape;
    if tokens != [] { ValuesGrow(AddToken(attrs, tokens[0], '\t'), tokens[1..], key); }
  }

  /** One wrong value cannot be made good by what follows. */
  lemma WrongValue(tokens: seq<string>, all: seq<string>, ps: seq<Pair>, attrs: Attrs, u: string)
    requires ps != [] && tokens <= all && u != ps[0].value
    requires AddTokens(map[], tokens, '\t') == Add(attrs, ps[0].key, u)
    ensures AddTokens(map[], all, '\t') != Collected(attrs, ps)
  {
    hide AddToken, AddTokens;
    var key, more := ps[0].key, all[|tokens|..];
    assert all == tokens + more;
    AddTokensCat(map[], tokens, more);
    ValuesGrow(Add(attrs, key, u), more, key);
    CollectedValues(attrs, ps, key);
    var n := |Values(attrs, key)|;
    assert Values(Add(attrs, key, u), key) == Values(attrs, key) + [u];
    assert Values(AddTokens(map[], all, '\t'), key)[n] == u;
    assert Values(Collected(attrs, ps), key)[n] == ps[0].value;
  }

  lemma ImageAttrsOf(ps: seq<Pair>)
    requires PairsOk(ps, '\t')
    ensures AttrsOf(ImagePairs(ps), '\t') == Collected(map[], ps) <==> AllSurvive(ps)
  {
    hide PairsOk, TokensFrom, AddTokens;
    var s := ImagePairs(ps);
    if ps == [] {
      NoTokens('\t');
    } else {
      assert s[0..] == s;
      assert AddTokens(map[], [], '\t') == map[] by { NoneAdded(); }
      ImageAttrs(s, 0, [], ps, map[]);
    }
  }

  lemma NoneAdded()
    ensures AddTokens(map[], [], '\t') == map[]
  {
  }

  // ----- the whole event

  lemma ShortStart(h: Head, ps: seq<Pair>)
    requires PairsOk(ps, '\t')
    ensures HasPrefix(PrintShort(h, ps), "LEEF:") && Trimmed(PrintShort(h, ps))
  {
    hide EscapeField, PrintPairs;
    var parts := ShortParts(h);
    EscapeFieldPlain(parts[0]);
    assert PrintFields(parts) == parts[0] + ("|" + PrintFields(parts[1..]));
    FieldsEnd(parts);
    if ps != [] { PairsEnd(ps, '\t'); } else { NoPairs('\t'); }
  }

  lemma SafeParts(ps: seq<Pair>)
    ensures ShortSafe(ps) <==> NoBar(ps) && AllSurvive(ps)
  {
    hide Survives;
  }

  lemma DecodeShort(h: Head, ps: seq<Pair>)
    requires PairsOk(ps, '\t') && |PrintShort(h, ps)| <= MAX_PAYLOAD
    ensures var r := HeaderFrom(PrintShort(h, ps), 0, [], "", false);
      r.Header? && DecodeSpec(PrintShort(h, ps)) == EventOf(r.parts, r.rest)
  {
    hide HeaderFrom, PrintShort, TrimSpace, PairsOk, EventOf, ImagePairs, NoBar;
    var s := PrintShort(h, ps);
    ShortStart(h, ps);
    TrimmedSpace(s);
    assert s[0..] == s;
    ShortHeader(h, ps);
  }

  /** The short form, exactly: an event within the size limits comes back if and only if no key and no
      value holds a bar and every backslash stands before a byte that it does not change. */
  lemma ShortRoundTripIff(h: Head, ps: seq<Pair>)
    requires PairsOk(ps, '\t') && |PrintShort(h, ps)| <= MAX_PAYLOAD && |Collected(map[], ps)| <= MAX_FIELDS
    ensures var e := Event("2.0", h.vendor, h.product, h.productVersion, h.eventId, Collected(map[], ps));
      DecodeSpec(PrintShort(h, ps)) == Record(e) <==> ShortSafe(ps)
  {
    hide HeaderFrom, AttrsOf, PrintShort, PrintPairs, ImagePairs, ParseDelimiter, PairsOk, NoBar, AllSurvive, ShortSafe,
         Collected, Fields, Bytes, Total;
    DecodeShort(h, ps);
    ShortHeader(h, ps);
    SafeParts(ps);
    if NoBar(ps) {
      ImageAttrsOf(ps);
      assert TrimPrefix("LEEF:2.0", "LEEF:") == "2.0" by {
        assert "LEEF:2.0"[..5] == "LEEF:" && "LEEF:2.0"[5..] == "2.0";
      }
    } else {
      BarredDiffers(h, ps);
    }
  }

  lemma BarredDiffers(h: Head, ps: seq<Pair>)
    requires PairsOk(ps, '\t') && !NoBar(ps)
    ensures var r := HeaderFrom(PrintShort(h, ps), 0, [], "", false);
      r.Header? && forall d :: AttrsOf(r.rest, d) != Collected(map[], ps)
  {
    hide HeaderFrom, AttrsOf, PrintShort, PrintPairs, PairsOk, Collected, Bytes, Total;
    ShortHeader(h, ps);
    var r := HeaderFrom(PrintShort(h, ps), 0, [], "", false);
    PrintedWeighs(ps, '\t', map[]);
    NothingWeighs();
    forall d ensures AttrsOf(r.rest, d) != Collected(map[], ps) { AttrsWeigh(r.rest, d); }
  }

  /** The value backslash-t, and how it is printed. */
  const LOST := Pair("k", "\\t", false)

  /** The tab, written with a letter. */
  const FOUND := Pair("k", "\t", true)

  lemma LostPrinted()
    ensures PrintPair(LOST, '\t') == "k=\\\\t" && PrintPair(FOUND, '\t') == "k=\\t"
    ensures PairsOk([LOST], '\t') && PairsOk([FOUND], '\t')
  {
    assert "\\t"[1..] == "t" && "t"[1..] == "";
    assert EscapeValue("", '\t', false) == "";
    assert EscapeValue("t", '\t', false) == "t";
    assert EscapeValue("\\t", '\t', false) == "\\\\" + "t";
    assert "\t"[1..] == "";
    assert EscapeValue("\t", '\t', true) == "\\t";
  }

  lemma LostHeader(s: string, i: nat, parts: seq<string>)
    requires At(s, i, "k=\\\\t") && |s| == i + 5 && ShortHead(parts) && |parts| == 5
    ensures HeaderFrom(s, i, parts, "", false) == Header(parts, "k=\\t")
  {
    hide At, Complete;
    AtSlice(s, i, "k=\\\\t");
    assert s[i] == 'k' && s[i + 1] == '=' && s[i + 2] == '\\' && s[i + 3] == '\\' && s[i + 4] == 't';
    HeadEnds(s, parts, "k=\\t");
    assert "" + ['k'] == "k" && "k" + ['='] == "k=" && "k=" + ['\\'] == "k=\\" && "k=\\" + ['t'] == "k=\\t";
    assert HeaderFrom(s, i + 4, parts, "k=\\", false) == HeaderFrom(s, i + 5, parts, "k=\\t", false);
    assert HeaderFrom(s, i + 3, parts, "k=", true) == HeaderFrom(s, i + 4, parts, "k=\\", false);
    assert HeaderFrom(s, i + 2, parts, "k=", false) == HeaderFrom(s, i + 3, parts, "k=", true);
    assert HeaderFrom(s, i + 1, parts, "k", false) == HeaderFrom(s, i + 2, parts, "k=", false);
    assert HeaderFrom(s, i, parts, "", false) == HeaderFrom(s, i + 1, parts, "k", false);
  }

  lemma OneCollected(p: Pair)
    ensures Collected(map[], [p]) == map[p.key := [p.value]]
  {
    assert [p][1..] == [] && [] + [p.value] == [p.value];
    assert Collected(map[], [p]) == Collected(Add(map[], p.key, p.value), []);
  }

  /** Other values are changed: a printed backslash is unescaped twice, so that backslash-t comes
      back as a tab in every event of the short form. */
  lemma ShortLosesBackslash(h: Head)
    requires |PrintShort(h, [LOST])| <= MAX_PAYLOAD
    ensures DecodeSpec(PrintShort(h, [LOST])) ==
      Record(Event("2.0", h.vendor, h.product, h.productVersion, h.eventId, Collected(map[], [FOUND])))
    ensures Collected(map[], [FOUND]) == map["k" := ["\t"]] != Collected(map[], [LOST])
  {
    hide HeaderFrom, AttrsOf, PrintFields, ParseDelimiter, TrimSpace, PairsOk, PrintPair, Collected, At, Fields;
    var s, parts := PrintShort(h, [LOST]), ShortParts(h);
    LostPrinted();
    ShortStart(h, [LOST]);
    TrimmedSpace(s);
    assert s[0..] == s;
    AtAppend(PrintFields(parts), PrintPairs([LOST], '\t'));
    assert [] + parts == parts;
    FieldsPassed(s, 0, [], parts);
    LostHeader(s, |PrintFields(parts)|, parts);
    AttributesPrinted([FOUND], '\t');
    OneCollected(LOST);
    OneCollected(FOUND);
    assert |LOST.value| != |FOUND.value|;
    assert map["k" := [LOST.value]]["k"] != map["k" := [FOUND.value]]["k"];
  }
}
