/** validateJSONDepth: one pass over the bytes against the nesting depth of the tree
    they print (json.go:164-196; sections 2 to 7 of RFC 8259). */
module JsonDepth {

  const MAX_DEPTH := 32

  // ----- the scanner

  datatype Scanner = Scanner(depth: int, inString: bool, escaped: bool) | TooDeep

  const START := Scanner(0, false, false)

  function Feed(st: Scanner, b: char): Scanner
  {
    if st.TooDeep? then st
    else if st.inString then
      if st.escaped then st.(escaped := false)
      else if b == '\\' then st.(escaped := true)
      else if b == '"' then st.(inString := false)
      else st
    else if b == '"' then st.(inString := true)
    else if b == '{' || b == '[' then if st.depth + 1 > MAX_DEPTH then TooDeep else st.(depth := st.depth + 1)
    else if b == '}' || b == ']' then st.(depth := st.depth - 1)
    else st
  }

  function Scan(st: Scanner, raw: string): Scanner
    decreases |raw|
  {
    if raw == "" then st else Scan(Feed(st, raw[0]), raw[1..])
  }

  lemma {:induction false} ScanConcat(st: Scanner, a: string, b: string)
    ensures Scan(st, a + b) == Scan(Scan(st, a), b)
    decreases |a|
  {
    if a == "" {
      assert a + b == b;
    } else {
      assert (a + b)[0] == a[0] && (a + b)[1..] == a[1..] + b;
      ScanConcat(Feed(st, a[0]), a[1..], b);
    }
  }

  lemma ScanLast(st: Scanner, raw: string, i: nat)
    requires i < |raw|
    ensures Scan(st, raw[..i + 1]) == Feed(Scan(st, raw[..i]), raw[i])
  {
    assert raw[..i + 1] == raw[..i] + [raw[i]];
    ScanConcat(st, raw[..i], [raw[i]]);
    assert Scan(Scan(st, raw[..i]), [raw[i]]) == Scan(Feed(Scan(st, raw[..i]), raw[i]), [raw[i]][1..]);
  }

  lemma {:induction false} TooDeepStays(raw: string)
    ensures Scan(TooDeep, raw) == TooDeep
  {
    if raw != "" { TooDeepStays(raw[1..]); }
  }

  /** The loop of validateJSONDepth. */
  method ValidateJSONDepth(raw: string) returns (ok: bool)
    ensures ok <==> Scan(START, raw) != TooDeep
  {
    var depth, inString, escaped := 0, false, false;
    for i := 0 to |raw|
      invariant Scan(START, raw[..i]) == Scanner(depth, inString, escaped)
    {
      ScanLast(START, raw, i);
      var b := raw[i];
      if inString {
        if escaped {
          escaped := false;
          continue;
        }
        if b == '\\' {
          escaped := true;
        } else if b == '"' {
          inString := false;
        }
        continue;
      }
      if b == '"' {
        inString := true;
        continue;
      }
      if b == '{' || b == '[' {
        depth := depth + 1;
        if depth > MAX_DEPTH {
          ScanConcat(START, raw[..i + 1], raw[i + 1..]);
          TooDeepStays(raw[i + 1..]);
          assert raw == raw[..i + 1] + raw[i + 1..];
          return false;
        }
      }
      if b == '}' || b == ']' {
        depth := depth - 1;
      }
    }
    assert raw[..|raw|] == raw;
    ok := true;
  }

  // ----- JSON texts

  /** One piece of a string: a character as it stands, or a backslash and what it escapes. */
  datatype Piece = Plain(c: char) | Escape(c: char)

  datatype Json =
    | Scalar(text: string)                             // number, true, false or null
    | Str(pieces: seq<Piece>)
    | Arr(items: seq<Json>)
    | Obj(members: seq<Member>)
    | Padded(before: string, inner: Json, after: string)  // white space around a value

  datatype Member = Member(key: seq<Piece>, value: Json)

  predicate Blank(c: char) { c in {' ', '\t', '\r', '\n'} }

  predicate Neutral(c: char) { c !in {'"', '{', '}', '[', ']'} }

  predicate PieceOk(p: Piece) { p.Plain? ==> p.c != '"' && p.c != '\\' }

  predicate WellFormed(t: Json)
    decreases t
  {
    match t
    case Scalar(text) => forall i :: 0 <= i < |text| ==> Neutral(text[i])
    case Str(pieces) => forall i :: 0 <= i < |pieces| ==> PieceOk(pieces[i])
    case Arr(items) => forall i :: 0 <= i < |items| ==> WellFormed(items[i])
    case Obj(members) => forall i :: 0 <= i < |members| ==> MemberOk(members[i])
    case Padded(before, inner, after) =>
      && (forall i :: 0 <= i < |before| ==> Blank(before[i])) && WellFormed(inner)
      && (forall i :: 0 <= i < |after| ==> Blank(after[i]))
  }

  predicate MemberOk(m: Member)
    decreases m
  {
    (forall i :: 0 <= i < |m.key| ==> PieceOk(m.key[i])) && WellFormed(m.value)
  }

  function PrintPieces(ps: seq<Piece>): string
  {
    if ps == [] then "" else (if ps[0].Plain? then [ps[0].c] else ['\\', ps[0].c]) + PrintPieces(ps[1..])
  }

  function PrintString(ps: seq<Piece>): string { "\"" + PrintPieces(ps) + "\"" }

  function Print(t: Json): string
    decreases t, 0
  {
    match t
    case Scalar(text) => text
    case Str(pieces) => PrintString(pieces)
    case Arr(items) => "[" + PrintItems(items) + "]"
    case Obj(members) => "{" + PrintMembers(members) + "}"
    case Padded(before, inner, after) => before + Print(inner) + after
  }

  function PrintItems(items: seq<Json>): string
    decreases items, 0
  {
    if items == [] then "" else Print(items[0]) + (if |items| > 1 then "," else "") + PrintItems(items[1..])
  }

  function PrintMembers(ms: seq<Member>): string
    decreases ms, 0
  {
    if ms == [] then ""
    else PrintString(ms[0].key) + ":" + Print(ms[0].value) + (if |ms| > 1 then "," else "") + PrintMembers(ms[1..])
  }

  function Max(a: nat, b: nat): nat { if a >= b then a else b }

  /** The nesting depth of the tree: arrays and objects count one each. */
  function Depth(t: Json): nat
    decreases t, 0
  {
    match t
    case Scalar(_) => 0
    case Str(_) => 0
    case Arr(items) => 1 + ItemsDepth(items)
    case Obj(members) => 1 + MembersDepth(members)
    case Padded(_, inner, _) => Depth(inner)
  }

  function ItemsDepth(items: seq<Json>): nat
    decreases items, 0
  {
    if items == [] then 0 else Max(Depth(items[0]), ItemsDepth(items[1..]))
  }

  function MembersDepth(ms: seq<Member>): nat
    decreases ms, 0
  {
    if ms == [] then 0 else Max(Depth(ms[0].value), MembersDepth(ms[1..]))
  }

  // ----- scanning printed texts

  /** What a text of nesting depth `h` does to a scanner outside strings at depth `d`. */
  function Expect(d: int, h: nat): Scanner { if d + h <= MAX_DEPTH then Scanner(d, false, false) else TooDeep }

  lemma {:induction false} ScanNeutral(st: Scanner, text: string)
    requires st.Scanner? && !st.inString && forall i :: 0 <= i < |text| ==> Neutral(text[i])
    ensures Scan(st, text) == st
  {
    if text != "" { ScanNeutral(st, text[1..]); }
  }

  /** Quotes, backslashes and brackets inside a string do not count. */
  lemma {:induction false} ScanPieces(d: int, ps: seq<Piece>)
    requires forall i :: 0 <= i < |ps| ==> PieceOk(ps[i])
    ensures Scan(Scanner(d, true, false), PrintPieces(ps)) == Scanner(d, true, false)
  {
    if ps == [] {
    } else {
      hide Scan;
      var st := Scanner(d, true, false);
      var c := ps[0].c;
      if ps[0].Plain? {
        ScanOne(st, c);
        ScanConcat(st, [c], PrintPieces(ps[1..]));
      } else {
        ScanOne(st, '\\');
        ScanOne(st.(escaped := true), c);
        ScanConcat(st, ['\\'], [c]);
        assert ['\\', c] == ['\\'] + [c];
        ScanConcat(st, ['\\', c], PrintPieces(ps[1..]));
      }
      ScanPieces(d, ps[1..]);
    }
  }

  lemma ScanOne(st: Scanner, c: char)
    ensures Scan(st, [c]) == Feed(st, c)
  {
    assert [c][1..] == "";
  }

  lemma ScanString(d: int, ps: seq<Piece>)
    requires forall i :: 0 <= i < |ps| ==> PieceOk(ps[i])
    ensures Scan(Scanner(d, false, false), PrintString(ps)) == Scanner(d, false, false)
  {
    var st := Scanner(d, false, false);
    ScanConcat(st, "\"" + PrintPieces(ps), "\"");
    ScanConcat(st, "\"", PrintPieces(ps));
    ScanOne(st, '"');
    ScanPieces(d, ps);
    ScanOne(Scanner(d, true, false), '"');
  }

  /** Scanning is stuck once too deep, and concatenation takes the deeper of its parts. */
  lemma ScanTwo(d: int, a: string, ha: nat, b: string, hb: nat)
    requires Scan(Scanner(d, false, false), a) == Expect(d, ha)
    requires Scan(Scanner(d, false, false), b) == Expect(d, hb)
    ensures Scan(Scanner(d, false, false), a + b) == Expect(d, Max(ha, hb))
  {
    ScanConcat(Scanner(d, false, false), a, b);
    TooDeepStays(b);
  }

  lemma ScanBrackets(d: int, open: char, body: string, h: nat, close: char)
    requires (open == '[' && close == ']') || (open == '{' && close == '}')
    requires d <= MAX_DEPTH && (d < MAX_DEPTH ==> Scan(Scanner(d + 1, false, false), body) == Expect(d + 1, h))
    ensures Scan(Scanner(d, false, false), [open] + body + [close]) == Expect(d, 1 + h)
  {
    hide Scan;
    var st := Scanner(d, false, false);
    ScanConcat(st, [open] + body, [close]);
    ScanConcat(st, [open], body);
    ScanOne(st, open);
    if d < MAX_DEPTH {
      ScanOne(Scanner(d + 1, false, false), close);
    } else {
      TooDeepStays(body);
    }
    ScanOne(TooDeep, close);
  }

  /** The scanner on a printed tree: it rejects exactly when the nesting goes past the limit, and
      otherwise leaves its depth counter where it was. */
  lemma {:induction false} ScanTree(d: int, t: Json)
    requires d <= MAX_DEPTH && WellFormed(t)
    ensures Scan(Scanner(d, false, false), Print(t)) == Expect(d, Depth(t))
    decreases t, 0
  {
    match t
    case Scalar(text) => ScanNeutral(Scanner(d, false, false), text);
    case Str(pieces) => ScanString(d, pieces);
    case Arr(items) =>
      if d < MAX_DEPTH { ScanItems(d + 1, items); }
      ScanBrackets(d, '[', PrintItems(items), ItemsDepth(items), ']');
    case Obj(members) =>
      if d < MAX_DEPTH { ScanMembers(d + 1, members); }
      ScanBrackets(d, '{', PrintMembers(members), MembersDepth(members), '}');
    case Padded(before, inner, after) =>
      ScanNeutral(Scanner(d, false, false), before);
      ScanTree(d, inner);
      ScanNeutral(Scanner(d, false, false), after);
      ScanTwo(d, before, 0, Print(inner), Depth(inner));
      ScanTwo(d, before + Print(inner), Depth(inner), after, 0);
  }

  lemma {:induction false} ScanItems(d: int, items: seq<Json>)
    requires d <= MAX_DEPTH && forall i :: 0 <= i < |items| ==> WellFormed(items[i])
    ensures Scan(Scanner(d, false, false), PrintItems(items)) == Expect(d, ItemsDepth(items))
    decreases items, 0
  {
    if items != [] {
      ScanTree(d, items[0]);
      ScanItems(d, items[1..]);
      var sep := if |items| > 1 then "," else "";
      ScanNeutral(Scanner(d, false, false), sep);
      ScanTwo(d, Print(items[0]), Depth(items[0]), sep, 0);
      ScanTwo(d, Print(items[0]) + sep, Depth(items[0]), PrintItems(items[1..]), ItemsDepth(items[1..]));
    }
  }

  lemma {:induction false} ScanMembers(d: int, ms: seq<Member>)
    requires d <= MAX_DEPTH && forall i :: 0 <= i < |ms| ==> MemberOk(ms[i])
    ensures Scan(Scanner(d, false, false), PrintMembers(ms)) == Expect(d, MembersDepth(ms))
    decreases ms, 0
  {
    if ms != [] {
      var key, value, sep := PrintString(ms[0].key), Print(ms[0].value), if |ms| > 1 then "," else "";
      var h := Depth(ms[0].value);
      assert MemberOk(ms[0]);
      ScanString(d, ms[0].key);
      ScanTree(d, ms[0].value);
      ScanMembers(d, ms[1..]);
      ScanNeutral(Scanner(d, false, false), ":");
      ScanNeutral(Scanner(d, false, false), sep);
      ScanTwo(d, key, 0, ":", 0);
      ScanTwo(d, key + ":", 0, value, h);
      ScanTwo(d, key + ":" + value, h, sep, 0);
      ScanTwo(d, key + ":" + value + sep, h, PrintMembers(ms[1..]), MembersDepth(ms[1..]));
    }
  }

  /** The one-pass scanner accepts the printed form of a tree exactly when its nesting depth is at
      most 32, and ends with its depth counter back at zero. */
  lemma DepthScan(t: Json)
    requires WellFormed(t)
    ensures Scan(START, Print(t)) != TooDeep <==> Depth(t) <= MAX_DEPTH
    ensures Depth(t) <= MAX_DEPTH ==> Scan(START, Print(t)) == START
  {
    ScanTree(0, t);
  }
}
