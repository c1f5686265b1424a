/** parseKeyValueTokens: key=value tokens with quoted values (syslog.go:280-339). */
module KeyValue {
  import opened Text

  /** `Unterminated` is the only error the scanner reports. */
  datatype Parsed = Fields(fields: map<string, string>) | Unterminated(key: string)

  predicate QuoteMark(c: char) { c == '"' || c == '\'' }

  predicate Space(c: char) { c in {' ', '\t', '\r', '\n'} }

  function SpaceEnd(s: string, i: nat): (r: nat)
    requires i <= |s|
    ensures i <= r <= |s| && (r < |s| ==> !Space(s[r]))
    decreases |s| - i
  {
    if i < |s| && Space(s[i]) then SpaceEnd(s, i + 1) else i
  }

  function KeyEnd(s: string, i: nat): (r: nat)
    requires i <= |s|
    ensures i <= r <= |s| && forall k :: i <= k < r ==> s[k] != '=' && !Space(s[k])
    decreases |s| - i
  {
    if i < |s| && s[i] != '=' && !Space(s[i]) then KeyEnd(s, i + 1) else i
  }

  function WordEnd(s: string, i: nat): (r: nat)
    requires i <= |s|
    ensures i <= r <= |s| && (i < |s| && !Space(s[i]) ==> i < r)
    decreases |s| - i
  {
    if i < |s| && !Space(s[i]) then WordEnd(s, i + 1) else i
  }

  datatype Quoted = Closed(value: string, next: nat) | Open

  /** The quoted value that continues at `i`, after `acc`. */
  function ReadQuoted(s: string, i: nat, quote: char, acc: string): (r: Quoted)
    requires i <= |s|
    ensures r.Closed? ==> i < r.next <= |s|
    decreases |s| - i
  {
    if i == |s| then Open
    else if s[i] == '\\' && i + 1 < |s| then
      if s[i + 1] == quote || s[i + 1] == '\\' then ReadQuoted(s, i + 2, quote, acc + [s[i + 1]])
      else ReadQuoted(s, i + 1, quote, acc + [s[i]])
    else if s[i] == quote then Closed(acc, i + 1)
    else ReadQuoted(s, i + 1, quote, acc + [s[i]])
  }

  datatype Token = Field(key: string, value: string, next: nat) | Skip(next: nat) | Broken(key: string)

  /** What one turn of the scanner reads from `start`, the spaces already skipped. */
  function TokenAt(s: string, start: nat): (t: Token)
    requires start <= |s|
    ensures !t.Broken? ==> start <= t.next <= |s|
    ensures !t.Broken? && start < |s| && !Space(s[start]) ==> start < t.next
  {
    var i := KeyEnd(s, start);
    if i == |s| || s[i] != '=' || i == start then Skip(WordEnd(s, i))
    else if i + 1 < |s| && QuoteMark(s[i + 1]) then
      var q := ReadQuoted(s, i + 2, s[i + 1], "");
      if q.Open? then Broken(s[start..i]) else Field(s[start..i], q.value, q.next)
    else
      var end := WordEnd(s, i + 1);
      if end == i + 1 then Skip(end) else Field(s[start..i], s[i + 1..end], end)
  }

  /** Every turn makes progress, so the scanner stops on every input. */
  function Parse(s: string, i: nat, fields: map<string, string>): Parsed
    requires i <= |s|
    decreases |s| - i
  {
    if i == |s| then Fields(fields)
    else
      var t := TokenAt(s, SpaceEnd(s, i));
      if t.Broken? then Unterminated(t.key)
      else Parse(s, t.next, if t.Field? then fields[t.key := t.value] else fields)
  }

  lemma ParseStep(s: string, i: nat, fields: map<string, string>)
    requires i < |s|
    ensures var t := TokenAt(s, SpaceEnd(s, i));
      if t.Broken? then Parse(s, i, fields) == Unterminated(t.key)
      else i < t.next && Parse(s, i, fields) == Parse(s, t.next, if t.Field? then fields[t.key := t.value] else fields)
  {
  }

  /** The quoted branch: the loop with the string builder. */
  method ScanQuoted(s: string, start: nat, quote: char) returns (r: Quoted)
    requires start <= |s|
    ensures r == ReadQuoted(s, start, quote, "")
  {
    var i, value, closed := start, "", false;
    while i < |s| && !closed
      invariant start <= i <= |s|
      invariant ReadQuoted(s, start, quote, "") == if closed then Closed(value, i) else ReadQuoted(s, i, quote, value)
      decreases |s| - i, !closed
    {
      if s[i] == '\\' && i + 1 < |s| {
        if s[i + 1] == quote || s[i + 1] == '\\' {
          value, i := value + [s[i + 1]], i + 2;
        } else {
          value, i := value + [s[i]], i + 1;
        }
      } else if s[i] == quote {
        i, closed := i + 1, true;
      } else {
        value, i := value + [s[i]], i + 1;
      }
    }
    r := if closed then Closed(value, i) else Open;
  }

  method ParseKeyValueTokens(s: string) returns (r: Parsed)
    ensures r == Parse(s, 0, map[])
  {
    hide Parse, ReadQuoted;
    var fields: map<string, string> := map[];
    var i := 0;
    while i < |s|
      invariant 0 <= i <= |s|
      invariant Parse(s, 0, map[]) == Parse(s, i, fields)
      decreases |s| - i
    {
      ParseStep(s, i, fields);
      i := ScanSpaces(s, i);
      var start := i;
      i := ScanKey(s, i);
      if i == |s| || s[i] != '=' || i == start {
        i := ScanWord(s, i);
      } else {
        var key := s[start..i];
        i := i + 1;
        if i < |s| && QuoteMark(s[i]) {
          var q := ScanQuoted(s, i + 1, s[i]);
          if q.Open? { return Unterminated(key); }
          fields, i := fields[key := q.value], q.next;
        } else {
          var startValue := i;
          i := ScanWord(s, i);
          if startValue < i { fields := fields[key := s[startValue..i]]; }
        }
      }
    }
    ParseEnd(s, fields);
    r := Fields(fields);
  }

  method ScanSpaces(s: string, start: nat) returns (i: nat)
    requires start <= |s|
    ensures i == SpaceEnd(s, start)
  {
    i := start;
    while i < |s| && Space(s[i])
      invariant start <= i <= |s| && SpaceEnd(s, start) == SpaceEnd(s, i)
    {
      i := i + 1;
    }
  }

  method ScanKey(s: string, start: nat) returns (i: nat)
    requires start <= |s|
    ensures i == KeyEnd(s, start)
  {
    i := start;
    while i < |s| && s[i] != '=' && !Space(s[i])
      invariant start <= i <= |s| && KeyEnd(s, start) == KeyEnd(s, i)
    {
      i := i + 1;
    }
  }

  method ScanWord(s: string, start: nat) returns (i: nat)
    requires start <= |s|
    ensures i == WordEnd(s, start)
  {
    i := start;
    while i < |s| && !Space(s[i])
      invariant start <= i <= |s| && WordEnd(s, start) == WordEnd(s, i)
    {
      i := i + 1;
    }
  }

  lemma ParseEnd(s: string, fields: map<string, string>)
    ensures Parse(s, |s|, fields) == Fields(fields)
  {
  }

  // ----- printed tokens

  /** A token as a log source writes it, after the spaces in `gap`: a quoted value, a bare value, or
      a word that is no field. */
  datatype Pair =
    | Quote(gap: string, key: string, quote: char, value: string)
    | Bare(gap: string, key: string, value: string)
    | Word(gap: string, word: string)

  predicate Blank(w: string) { forall i :: 0 <= i < |w| ==> Space(w[i]) }

  predicate NoSpace(w: string) { forall i :: 0 <= i < |w| ==> !Space(w[i]) }

  predicate KeyOk(key: string) { key != "" && forall i :: 0 <= i < |key| ==> key[i] != '=' && !Space(key[i]) }

  predicate PairOk(p: Pair)
  {
    && Blank(p.gap)
    && match p
       case Quote(_, key, quote, _) => KeyOk(key) && QuoteMark(quote)
       case Bare(_, key, value) => KeyOk(key) && value != "" && NoSpace(value) && !QuoteMark(value[0])
       case Word(_, word) => word != "" && NoSpace(word) && (word[0] == '=' || '=' !in word)
  }

  /** Quote and backslash are escaped; every other byte stands for itself. */
  function Escape(v: string, quote: char): string
  {
    if v == "" then "" else EscapeByte(v[0], quote) + Escape(v[1..], quote)
  }

  function EscapeByte(c: char, quote: char): string { if c == quote || c == '\\' then ['\\', c] else [c] }

  /** A quoted pair up to and with its opening quote, and then `body`. */
  function Opened(p: Pair, body: string): string
    requires p.Quote?
  {
    p.gap + (p.key + ("=" + ([p.quote] + body)))
  }

  function PrintPair(p: Pair): string
  {
    match p
    case Quote(_, _, quote, value) => Opened(p, Escape(value, quote) + [quote])
    case Bare(gap, key, value) => gap + (key + ("=" + value))
    case Word(gap, word) => gap + word
  }

  function PrintPairs(ps: seq<Pair>): string
  {
    if ps == [] then "" else PrintPair(ps[0]) + PrintPairs(ps[1..])
  }

  /** Only a closing quote ends a token without a space behind it. */
  predicate PairsOk(ps: seq<Pair>)
  {
    && (forall i :: 0 <= i < |ps| ==> PairOk(ps[i]))
    && forall i :: 0 < i < |ps| && !ps[i - 1].Quote? ==> ps[i].gap != ""
  }

  /** The fields the tokens stand for: a repeated key keeps its last value, a word is no field. */
  function FieldsOf(ps: seq<Pair>, fields: map<string, string>): map<string, string>
    decreases |ps|
  {
    if ps == [] then fields
    else FieldsOf(ps[1..], if ps[0].Word? then fields else fields[ps[0].key := ps[0].value])
  }

  /** A token may end here. */
  predicate Ends(s: string, i: nat) { i == |s| || (i < |s| && Space(s[i])) }

  /** One printed byte of a quoted value. */
  lemma QuotedByte(s: string, i: nat, c: char, quote: char, acc: string)
    requires QuoteMark(quote) && At(s, i, EscapeByte(c, quote))
    requires i + |EscapeByte(c, quote)| <= |s|
    ensures ReadQuoted(s, i, quote, acc) == ReadQuoted(s, i + |EscapeByte(c, quote)|, quote, acc + [c])
  {
    hide At;
    var e := EscapeByte(c, quote);
    AtSlice(s, i, e);
    assert s[i] == e[0];
    if |e| == 2 { assert s[i + 1] == e[1]; }
  }

  lemma QuotedEnd(s: string, i: nat, quote: char, acc: string)
    requires QuoteMark(quote) && At(s, i, [quote])
    ensures i <= |s| && ReadQuoted(s, i, quote, acc) == Closed(acc, i + 1)
  {
    AtByte(s, i, quote);
  }

  lemma {:induction false} QuotedPrinted(s: string, i: nat, v: string, quote: char, acc: string)
    requires QuoteMark(quote) && At(s, i, Escape(v, quote) + [quote])
    ensures i <= |s| && ReadQuoted(s, i, quote, acc) == Closed(acc + v, i + |Escape(v, quote)| + 1)
    decreases |v|
  {
    hide At, ReadQuoted, EscapeByte;
    AtSlice(s, i, Escape(v, quote) + [quote]);
    if v == "" {
      assert Escape(v, quote) + [quote] == [quote] && acc + v == acc;
      QuotedEnd(s, i, quote, acc);
    } else {
      var first, rest := EscapeByte(v[0], quote), Escape(v[1..], quote) + [quote];
      assert Escape(v, quote) + [quote] == first + rest;
      AtSplit(s, i, first, rest);
      QuotedByte(s, i, v[0], quote, acc);
      QuotedPrinted(s, i + |first|, v[1..], quote, acc + [v[0]]);
      assert acc + [v[0]] + v[1..] == acc + v;
    }
  }

  lemma {:induction false} GapPrinted(s: string, i: nat, gap: string)
    requires At(s, i, gap) && i + |gap| < |s| && !Space(s[i + |gap|])
    requires Blank(gap)
    ensures SpaceEnd(s, i) == i + |gap|
    decreases |gap|
  {
    if gap != "" {
      assert gap == [gap[0]] + gap[1..];
      AtSplit(s, i, [gap[0]], gap[1..]);
      AtByte(s, i, gap[0]);
      GapPrinted(s, i + 1, gap[1..]);
    }
  }

  lemma {:induction false} KeyPrinted(s: string, i: nat, key: string)
    requires At(s, i, key) && (Ends(s, i + |key|) || (i + |key| < |s| && s[i + |key|] == '='))
    requires forall k :: 0 <= k < |key| ==> key[k] != '=' && !Space(key[k])
    ensures KeyEnd(s, i) == i + |key|
    decreases |key|
  {
    if key != "" {
      assert key == [key[0]] + key[1..];
      AtSplit(s, i, [key[0]], key[1..]);
      AtByte(s, i, key[0]);
      KeyPrinted(s, i + 1, key[1..]);
    }
  }

  lemma {:induction false} WordPrinted(s: string, i: nat, word: string)
    requires At(s, i, word) && NoSpace(word) && Ends(s, i + |word|)
    ensures WordEnd(s, i) == i + |word|
    decreases |word|
  {
    if word != "" {
      assert word == [word[0]] + word[1..];
      AtSplit(s, i, [word[0]], word[1..]);
      AtByte(s, i, word[0]);
      WordPrinted(s, i + 1, word[1..]);
    }
  }

  lemma OpenedParts(s: string, i: nat, gap: string, key: string, quote: char, body: string)
    requires At(s, i, gap + (key + ("=" + ([quote] + body))))
    ensures At(s, i, gap) && At(s, i + |gap|, key) && At(s, i + |gap| + |key|, "=")
    ensures At(s, i + |gap| + |key| + 1, [quote]) && At(s, i + |gap| + |key| + 2, body)
  {
    hide At;
    AtSplit(s, i, gap, key + ("=" + ([quote] + body)));
    AtSplit(s, i + |gap|, key, "=" + ([quote] + body));
    AtSplit(s, i + |gap| + |key|, "=", [quote] + body);
    AtSplit(s, i + |gap| + |key| + 1, [quote], body);
  }

  /** A field with a quoted value, by where its key ends. */
  lemma QuoteToken(s: string, start: nat, eq: nat)
    requires start < eq && eq + 1 < |s| && s[eq] == '=' && KeyEnd(s, start) == eq && QuoteMark(s[eq + 1])
    ensures var r := ReadQuoted(s, eq + 2, s[eq + 1], "");
      TokenAt(s, start) == if r.Open? then Broken(s[start..eq]) else Field(s[start..eq], r.value, r.next)
  {
    hide KeyEnd, WordEnd, ReadQuoted, QuoteMark;
  }

  /** A key, a '=' and a quote that stand at `start`, `eq` and `eq + 1`. */
  lemma QuoteField(s: string, start: nat, eq: nat, key: string, quote: char)
    requires At(s, start, key) && At(s, eq, "=") && At(s, eq + 1, [quote]) && eq == start + |key|
    requires KeyOk(key) && QuoteMark(quote)
    ensures start < |s| && s[start] == key[0] && eq + 2 <= |s|
    ensures var r := ReadQuoted(s, eq + 2, quote, "");
      TokenAt(s, start) == if r.Open? then Broken(key) else Field(key, r.value, r.next)
  {
    hide KeyEnd, ReadQuoted, TokenAt, At, QuoteMark;
    assert key != "" by { KeyFirst(key); }
    assert s[start..eq] == key && s[start] == key[0] && start < eq by { AtSlice(s, start, key); }
    assert eq < |s| && s[eq] == '=' by { AtByte(s, eq, '='); }
    assert eq + 1 < |s| && s[eq + 1] == quote by { AtByte(s, eq + 1, quote); }
    assert KeyEnd(s, start) == eq by { KeyPrinted(s, start, key); }
    QuoteToken(s, start, eq);
  }

  /** The scanner comes to the opening quote. */
  lemma OpenedText(s: string, i: nat, gap: string, key: string, quote: char, body: string)
    requires At(s, i, gap + (key + ("=" + ([quote] + body)))) && Blank(gap) && KeyOk(key) && QuoteMark(quote)
    ensures var q := i + |gap| + |key| + 2;
      && i < |s| && q <= |s| && At(s, q, body)
      && var r := ReadQuoted(s, q, quote, "");
        TokenAt(s, SpaceEnd(s, i)) == if r.Open? then Broken(key) else Field(key, r.value, r.next)
  {
    hide SpaceEnd, TokenAt, At, ReadQuoted, QuoteMark, Blank, KeyOk;
    OpenedParts(s, i, gap, key, quote, body);
    QuoteField(s, i + |gap|, i + |gap| + |key|, key, quote);
    KeyFirst(key);
    GapPrinted(s, i, gap);
  }

  lemma OpenedPrinted(s: string, i: nat, p: Pair, body: string)
    requires p.Quote? && PairOk(p) && At(s, i, Opened(p, body))
    ensures var q := i + |p.gap| + |p.key| + 2;
      && i < |s| && q <= |s| && At(s, q, body)
      && var r := ReadQuoted(s, q, p.quote, "");
        TokenAt(s, SpaceEnd(s, i)) == if r.Open? then Broken(p.key) else Field(p.key, r.value, r.next)
  {
    hide SpaceEnd, TokenAt, At, ReadQuoted, QuoteMark, Blank, KeyOk, NoSpace;
    OpenedText(s, i, p.gap, p.key, p.quote, body);
  }

  /** What the scanner makes of a printed token. */
  function Read(p: Pair, next: nat): Token
  {
    if p.Word? then Skip(next) else Field(p.key, p.value, next)
  }

  lemma QuotePrinted(s: string, i: nat, p: Pair)
    requires p.Quote? && PairOk(p) && At(s, i, PrintPair(p))
    ensures i < |s| && TokenAt(s, SpaceEnd(s, i)) == Read(p, i + |PrintPair(p)|)
  {
    hide Escape, ReadQuoted, KeyEnd, SpaceEnd, TokenAt, At;
    OpenedPrinted(s, i, p, Escape(p.value, p.quote) + [p.quote]);
    QuotedPrinted(s, i + |p.gap| + |p.key| + 2, p.value, p.quote, "");
  }

  /** A field with a bare value, by where its parts end. */
  lemma BareToken(s: string, start: nat, eq: nat, end: nat)
    requires start < eq < |s| && s[eq] == '=' && KeyEnd(s, start) == eq
    requires eq + 1 < end <= |s| && WordEnd(s, eq + 1) == end && !QuoteMark(s[eq + 1])
    ensures TokenAt(s, start) == Field(s[start..eq], s[eq + 1..end], end)
  {
    hide KeyEnd, WordEnd, ReadQuoted;
  }

  /** A word without a field, by where its parts end. */
  lemma SkipToken(s: string, start: nat, k: nat, end: nat)
    requires start <= k <= |s| && KeyEnd(s, start) == k && (k == |s| || s[k] != '=' || k == start)
    requires WordEnd(s, k) == end
    ensures TokenAt(s, start) == Skip(end)
  {
    hide KeyEnd, WordEnd, ReadQuoted;
  }

  /** Where the parts of a bare pair stand. */
  lemma BareParts(s: string, i: nat, gap: string, key: string, value: string)
    requires At(s, i, gap + (key + ("=" + value)))
    ensures At(s, i, gap) && At(s, i + |gap|, key)
    ensures At(s, i + |gap| + |key|, "=") && At(s, i + |gap| + |key| + 1, value)
  {
    hide At;
    AtSplit(s, i, gap, key + ("=" + value));
    AtSplit(s, i + |gap|, key, "=" + value);
    AtSplit(s, i + |gap| + |key|, "=", value);
  }

  lemma KeyFirst(key: string)
    requires KeyOk(key)
    ensures key != "" && !Space(key[0]) && key[0] != '='
  {
  }

  /** A key, a '=' and a value that stand at `start`, `eq` and `eq + 1` are read as a field. */
  lemma BareField(s: string, start: nat, eq: nat, end: nat, key: string, value: string)
    requires At(s, start, key) && At(s, eq, "=") && At(s, eq + 1, value)
    requires eq == start + |key| && end == eq + 1 + |value| && Ends(s, end)
    requires KeyOk(key) && NoSpace(value) && value != "" && !QuoteMark(value[0])
    ensures start < |s| && s[start] == key[0] && TokenAt(s, start) == Field(key, value, end)
  {
    hide KeyEnd, WordEnd, TokenAt, At, Ends, NoSpace, QuoteMark;
    assert key != "" by { KeyFirst(key); }
    assert s[start..eq] == key && s[start] == key[0] && start < eq by { AtSlice(s, start, key); }
    assert s[eq + 1..end] == value && s[eq + 1] == value[0] && end <= |s| by { AtSlice(s, eq + 1, value); }
    assert eq < |s| && s[eq] == '=' by { AtByte(s, eq, '='); }
    assert KeyEnd(s, start) == eq by { KeyPrinted(s, start, key); }
    assert WordEnd(s, eq + 1) == end by { WordPrinted(s, eq + 1, value); }
    BareToken(s, start, eq, end);
  }

  lemma BareText(s: string, i: nat, gap: string, key: string, value: string)
    requires At(s, i, gap + (key + ("=" + value))) && Ends(s, i + |gap| + |key| + 1 + |value|)
    requires Blank(gap) && KeyOk(key) && NoSpace(value) && value != "" && !QuoteMark(value[0])
    ensures i < |s| && TokenAt(s, SpaceEnd(s, i)) == Field(key, value, i + |gap| + |key| + 1 + |value|)
  {
    hide SpaceEnd, TokenAt, At, Ends, NoSpace, QuoteMark, Blank, KeyOk;
    var start := i + |gap|;
    BareParts(s, i, gap, key, value);
    BareField(s, start, start + |key|, start + |key| + 1 + |value|, key, value);
    KeyFirst(key);
    GapPrinted(s, i, gap);
  }

  lemma BarePrinted(s: string, i: nat, p: Pair)
    requires p.Bare? && PairOk(p) && At(s, i, PrintPair(p)) && Ends(s, i + |PrintPair(p)|)
    ensures i < |s| && TokenAt(s, SpaceEnd(s, i)) == Read(p, i + |PrintPair(p)|)
  {
    hide TokenAt, SpaceEnd, At, Ends, NoSpace, Blank, KeyOk, QuoteMark, Opened, Escape;
    BareText(s, i, p.gap, p.key, p.value);
  }

  /** Where the scanner's loops stop on a gap and a word. */
  lemma WordStops(s: string, i: nat, gap: string, word: string)
    requires At(s, i, gap) && At(s, i + |gap|, word) && word != "" && i + |gap| < |s| && s[i + |gap|] == word[0]
    requires Blank(gap) && NoSpace(word) && Ends(s, i + |gap| + |word|)
    ensures SpaceEnd(s, i) == i + |gap| && WordEnd(s, i + |gap|) == i + |gap| + |word|
    ensures '=' !in word ==> KeyEnd(s, i + |gap|) == i + |gap| + |word|
  {
    hide KeyEnd, SpaceEnd, WordEnd, At, Space, Ends;
    GapPrinted(s, i, gap);
    WordPrinted(s, i + |gap|, word);
    if '=' !in word { KeyPrinted(s, i + |gap|, word); }
  }

  lemma AtStop(s: string, i: nat)
    requires Ends(s, i)
    ensures i <= |s| && WordEnd(s, i) == i && (i < |s| ==> s[i] != '=')
  {
  }

  lemma StartsWithEquals(s: string, start: nat)
    requires start < |s| && s[start] == '='
    ensures KeyEnd(s, start) == start
  {
  }

  lemma WordText(s: string, i: nat, gap: string, word: string)
    requires At(s, i, gap + word) && Ends(s, i + |gap| + |word|)
    requires Blank(gap) && NoSpace(word) && word != "" && (word[0] == '=' || '=' !in word)
    ensures i < |s| && TokenAt(s, SpaceEnd(s, i)) == Skip(i + |gap| + |word|)
  {
    hide TokenAt, KeyEnd, SpaceEnd, WordEnd, At, Ends, NoSpace, Blank;
    var start, end := i + |gap|, i + |gap| + |word|;
    AtSplit(s, i, gap, word);
    assert start < |s| && s[start] == word[0] && end <= |s| by { AtSlice(s, start, word); }
    WordStops(s, i, gap, word);
    if word[0] == '=' {
      StartsWithEquals(s, start);
      SkipToken(s, start, start, end);
    } else {
      AtStop(s, end);
      SkipToken(s, start, end, end);
    }
  }

  lemma SkipPrinted(s: string, i: nat, p: Pair)
    requires p.Word? && PairOk(p) && At(s, i, PrintPair(p)) && Ends(s, i + |PrintPair(p)|)
    ensures i < |s| && TokenAt(s, SpaceEnd(s, i)) == Read(p, i + |PrintPair(p)|)
  {
    hide TokenAt, SpaceEnd, At, Ends, NoSpace, Blank, KeyOk, QuoteMark, Opened, Escape;
    WordText(s, i, p.gap, p.word);
  }

  /** A printed token is read back whole, whatever bytes a quoted value holds. */
  lemma PairPrinted(s: string, i: nat, p: Pair)
    requires PairOk(p) && At(s, i, PrintPair(p)) && (p.Quote? || Ends(s, i + |PrintPair(p)|))
    ensures i < |s| && TokenAt(s, SpaceEnd(s, i)) == Read(p, i + |PrintPair(p)|)
  {
    if p.Quote? { QuotePrinted(s, i, p); } else if p.Bare? { BarePrinted(s, i, p); } else { SkipPrinted(s, i, p); }
  }

  /** The tokens end at the end of the input, before a space, or with a quote. */
  predicate LastEnds(s: string, i: nat, ps: seq<Pair>)
  {
    ps != [] && !ps[|ps| - 1].Quote? ==> Ends(s, i + |PrintPairs(ps)|)
  }

  lemma GapByte(s: string, i: nat, p: Pair)
    requires PairOk(p) && At(s, i, PrintPair(p)) && p.gap != ""
    ensures Ends(s, i)
  {
    var rest := PrintPair(p)[|p.gap|..];
    assert PrintPair(p) == p.gap + rest;
    AtSplit(s, i, p.gap, rest);
    AtSlice(s, i, p.gap);
  }

  lemma FirstEnds(s: string, i: nat, ps: seq<Pair>)
    requires PairsOk(ps) && ps != [] && At(s, i, PrintPairs(ps)) && LastEnds(s, i, ps)
    ensures var next := i + |PrintPair(ps[0])|;
      && At(s, i, PrintPair(ps[0])) && At(s, next, PrintPairs(ps[1..]))
      && (ps[0].Quote? || Ends(s, next)) && LastEnds(s, next, ps[1..]) && PairsOk(ps[1..])
  {
    hide PrintPair, PairOk, At;
    var next := i + |PrintPair(ps[0])|;
    AtSplit(s, i, PrintPair(ps[0]), PrintPairs(ps[1..]));
    if |ps| > 1 && !ps[0].Quote? {
      AtSplit(s, next, PrintPair(ps[1]), PrintPairs(ps[1..][1..]));
      GapByte(s, next, ps[1]);
    } else if |ps| == 1 {
      assert PrintPairs(ps[1..]) == "";
    }
  }

  lemma {:induction false} ParsePrinted(s: string, i: nat, ps: seq<Pair>, fields: map<string, string>)
    requires PairsOk(ps) && At(s, i, PrintPairs(ps)) && LastEnds(s, i, ps)
    ensures i + |PrintPairs(ps)| <= |s|
    ensures Parse(s, i, fields) == Parse(s, i + |PrintPairs(ps)|, FieldsOf(ps, fields))
    decreases |ps|
  {
    hide Parse, PairsOk, LastEnds, PrintPair, TokenAt, At;
    AtSlice(s, i, PrintPairs(ps));
    if ps != [] {
      FirstEnds(s, i, ps);
      FirstOk(ps);
      PairPrinted(s, i, ps[0]);
      ParseStep(s, i, fields);
      ParsePrinted(s, i + |PrintPair(ps[0])|, ps[1..],
          if ps[0].Word? then fields else fields[ps[0].key := ps[0].value]);
    }
  }

  lemma FirstOk(ps: seq<Pair>)
    requires PairsOk(ps) && ps != []
    ensures PairOk(ps[0])
  {
  }

  /** Printed tokens in front of anything that may follow them are all read first. */
  lemma ParsePrefix(ps: seq<Pair>, rest: string)
    requires PairsOk(ps) && (ps == [] || ps[|ps| - 1].Quote? || Ends(rest, 0))
    ensures Parse(PrintPairs(ps) + rest, 0, map[]) ==
      Parse(PrintPairs(ps) + rest, |PrintPairs(ps)|, FieldsOf(ps, map[]))
  {
    hide Parse, PrintPairs, FieldsOf, PairsOk, At;
    AtAppend(PrintPairs(ps), rest);
    ParsePrinted(PrintPairs(ps) + rest, 0, ps, map[]);
  }

  /** Key=value round trip: quoted and bare values, words in between, any gaps. */
  lemma RoundTrip(ps: seq<Pair>)
    requires PairsOk(ps)
    ensures Parse(PrintPairs(ps), 0, map[]) == Fields(FieldsOf(ps, map[]))
  {
    hide Parse, PrintPairs, FieldsOf, PairsOk;
    ParsePrefix(ps, "");
    assert PrintPairs(ps) + "" == PrintPairs(ps);
    ParseEnd(PrintPairs(ps), FieldsOf(ps, map[]));
  }

  /** With distinct keys the fields are exactly the pairs. */
  lemma {:induction false} DistinctFields(ps: seq<Pair>, fields: map<string, string>)
    requires forall i :: 0 <= i < |ps| ==> !ps[i].Word?
    requires forall i, j :: 0 <= i < j < |ps| ==> ps[i].key != ps[j].key
    ensures forall i :: 0 <= i < |ps| ==>
      ps[i].key in FieldsOf(ps, fields) && FieldsOf(ps, fields)[ps[i].key] == ps[i].value
    ensures forall k :: (forall i :: 0 <= i < |ps| ==> ps[i].key != k) ==>
      (k in FieldsOf(ps, fields) <==> k in fields) && (k in fields ==> FieldsOf(ps, fields)[k] == fields[k])
    decreases |ps|
  {
    if ps != [] {
      var rest, fields' := ps[1..], fields[ps[0].key := ps[0].value];
      DistinctFields(rest, fields');
      forall i | 0 <= i < |ps|
        ensures ps[i].key in FieldsOf(ps, fields) && FieldsOf(ps, fields)[ps[i].key] == ps[i].value
      {
        if i > 0 { assert ps[i] == rest[i - 1]; }
      }
      forall k | forall i :: 0 <= i < |ps| ==> ps[i].key != k
        ensures (k in FieldsOf(ps, fields) <==> k in fields) && (k in fields ==> FieldsOf(ps, fields)[k] == fields[k])
      {
        assert forall i :: 0 <= i < |rest| ==> rest[i].key == ps[i + 1].key != k;
        assert ps[0].key != k;
      }
    }
  }

  /** A printed value that the input ends inside is never closed. */
  lemma {:induction false} QuotedOpen(s: string, i: nat, v: string, quote: char, acc: string)
    requires QuoteMark(quote) && i <= |s| && At(s, i, Escape(v, quote)) && |s| == i + |Escape(v, quote)|
    ensures ReadQuoted(s, i, quote, acc).Open?
    decreases |v|
  {
    if v == "" {
      assert i == |s|;
    } else {
      hide At, ReadQuoted, EscapeByte;
      var first, rest := EscapeByte(v[0], quote), Escape(v[1..], quote);
      AtSplit(s, i, first, rest);
      QuotedByte(s, i, v[0], quote, acc);
      QuotedOpen(s, i + |first|, v[1..], quote, acc + [v[0]]);
    }
  }

  /** A quoted value that is never closed is refused, whatever stands in front of it. */
  lemma OpenQuote(ps: seq<Pair>, p: Pair)
    requires p.Quote? && PairsOk(ps + [p])
    ensures Parse(PrintPairs(ps) + Opened(p, Escape(p.value, p.quote)), 0, map[]) == Unterminated(p.key)
  {
    hide Parse, PrintPairs, FieldsOf, PairsOk, PairOk, Opened, Escape, TokenAt, SpaceEnd, At;
    var before, last := PrintPairs(ps), Opened(p, Escape(p.value, p.quote));
    BeforeLast(ps, p, Escape(p.value, p.quote));
    var s := before + last;
    ParsePrefix(ps, last);
    AtAppend(before, last);
    OpenLast(s, |before|, p);
    ParseStep(s, |before|, FieldsOf(ps, map[]));
  }

  lemma BeforeLast(ps: seq<Pair>, p: Pair, body: string)
    requires p.Quote? && PairsOk(ps + [p])
    ensures PairsOk(ps) && PairOk(p) && (ps == [] || ps[|ps| - 1].Quote? || Ends(Opened(p, body), 0))
  {
    hide PairOk;
    var all := ps + [p];
    assert all[|ps|] == p && forall i :: 0 <= i < |ps| ==> all[i] == ps[i];
    if ps != [] && !ps[|ps| - 1].Quote? { assert p.gap != ""; GapSpace(p); }
  }

  lemma GapSpace(p: Pair)
    requires PairOk(p) && p.gap != ""
    ensures Space(p.gap[0])
  {
  }

  lemma OpenLast(s: string, i: nat, p: Pair)
    requires p.Quote? && PairOk(p) && At(s, i, Opened(p, Escape(p.value, p.quote)))
    requires |s| == i + |Opened(p, Escape(p.value, p.quote))|
    ensures i < |s| && TokenAt(s, SpaceEnd(s, i)) == Broken(p.key)
  {
    hide Escape, ReadQuoted, TokenAt, SpaceEnd, At;
    OpenedPrinted(s, i, p, Escape(p.value, p.quote));
    QuotedOpen(s, i + |p.gap| + |p.key| + 2, p.value, p.quote, "");
  }

  /** Whatever the input, the keys are non-empty and hold no space and no '='. */
  lemma {:induction false} KeysClean(s: string, i: nat, fields: map<string, string>)
    requires i <= |s| && forall k :: k in fields ==> KeyOk(k)
    ensures Parse(s, i, fields).Fields? ==> forall k :: k in Parse(s, i, fields).fields ==> KeyOk(k)
    decreases |s| - i
  {
    if i < |s| {
      var start := SpaceEnd(s, i);
      var t := TokenAt(s, start);
      if !t.Broken? {
        KeysClean(s, t.next, if t.Field? then fields[t.key := t.value] else fields);
      }
    }
  }
}
