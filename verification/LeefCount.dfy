/** Counting bytes other than backslashes: escaping and unescaping keep the count, and splitting at a
    delimiter takes one away. */
module LeefCount {
  import opened Text
  import opened Leef
  import opened LeefPrint

  function Bytes(s: string): nat
  {
    if s == "" then 0 else (if s[0] == '\\' then 0 else 1) + Bytes(s[1..])
  }

  lemma {:induction false} BytesCat(a: string, b: string)
    ensures Bytes(a + b) == Bytes(a) + Bytes(b)
  {
    if a == "" {
      assert a + b == b;
    } else {
      assert (a + b)[1..] == a[1..] + b;
      BytesCat(a[1..], b);
    }
  }

  lemma BytesOne(c: char)
    ensures Bytes([c]) == if c == '\\' then 0 else 1
  {
    assert [c][1..] == "";
  }

  lemma BytesTwo(a: char, b: char)
    ensures Bytes([a, b]) == Bytes([a]) + Bytes([b])
  {
    BytesCat([a], [b]);
    assert [a] + [b] == [a, b];
  }

  lemma BytesFrom(s: string, i: nat)
    requires i < |s|
    ensures Bytes(s[i..]) == Bytes([s[i]]) + Bytes(s[i + 1..])
  {
    assert s[i..] == [s[i]] + s[i + 1..];
    BytesCat([s[i]], s[i + 1..]);
  }

  /** What stands behind a bar counts less than what stands in front of it and behind it. */
  lemma {:induction false} BytesBehind(s: string, i: nat, j: nat)
    requires i <= j < |s| && s[j] != '\\'
    ensures Bytes(s[j + 1..]) < Bytes(s[i..])
    decreases j - i
  {
    BytesFrom(s, i);
    BytesOne(s[i]);
    if i < j { BytesBehind(s, i + 1, j); }
  }

  lemma {:induction false} BytesTrimLeft(s: string)
    ensures Bytes(TrimLeft(s)) <= Bytes(s)
  {
    if s != "" && AsciiSpace(s[0]) { BytesTrimLeft(s[1..]); }
  }

  lemma {:induction false} BytesTrimRight(s: string)
    ensures Bytes(TrimRight(s)) <= Bytes(s)
    decreases |s|
  {
    if s != "" && AsciiSpace(s[|s| - 1]) {
      BytesTrimRight(s[..|s| - 1]);
      BytesCat(s[..|s| - 1], [s[|s| - 1]]);
      assert s == s[..|s| - 1] + [s[|s| - 1]];
    }
  }

  lemma BytesTrim(s: string)
    ensures Bytes(TrimSpace(s)) <= Bytes(s)
  {
    BytesTrimLeft(s);
    BytesTrimRight(TrimLeft(s));
  }

  // ----- escapes

  lemma BytesUnescaped(c: char, d: char)
    ensures Bytes(Unescaped(c, d)) == Bytes([c])
  {
    BytesOne(c);
    BytesTwo('\\', c);
    BytesOne('\\');
    BytesOne('\t');
    BytesOne('\n');
    BytesOne('\r');
  }

  lemma {:induction false} BytesUnescape(s: string, i: nat, d: char, out: string, escaped: bool)
    requires i <= |s|
    ensures Bytes(UnescapeFrom(s, i, d, out, escaped)) == Bytes(out) + Bytes(s[i..])
    decreases |s| - i
  {
    if i == |s| {
      BytesCat(out, "\\");
      BytesOne('\\');
    } else {
      BytesFrom(s, i);
      BytesOne(s[i]);
      if escaped {
        BytesUnescape(s, i + 1, d, out + Unescaped(s[i], d), false);
        BytesCat(out, Unescaped(s[i], d));
        BytesUnescaped(s[i], d);
      } else if s[i] == '\\' {
        BytesUnescape(s, i + 1, d, out, true);
      } else {
        BytesUnescape(s, i + 1, d, out + [s[i]], false);
        BytesCat(out, [s[i]]);
      }
    }
  }

  lemma BytesEscape1(c: char, d: char, letters: bool)
    ensures Bytes(EscapeByte(c, d, letters)) == Bytes([c])
  {
    BytesOne(c);
    BytesTwo('\\', c);
    BytesOne('\\');
    BytesTwo('\\', 't');
    BytesTwo('\\', 'n');
    BytesTwo('\\', 'r');
    BytesOne('t');
    BytesOne('n');
    BytesOne('r');
  }

  lemma {:induction false} BytesEscape(v: string, d: char, letters: bool)
    ensures Bytes(EscapeValue(v, d, letters)) == Bytes(v)
  {
    if v != "" {
      BytesEscape1(v[0], d, letters);
      BytesEscape(v[1..], d, letters);
      BytesCat(EscapeByte(v[0], d, letters), EscapeValue(v[1..], d, letters));
      BytesCat([v[0]], v[1..]);
      assert v == [v[0]] + v[1..];
    }
  }

  // ----- the weight of attributes

  /** Two for every value, and the bytes of its key and of itself. */
  function Weight(key: string, values: seq<string>): nat
  {
    if values == [] then 0
    else Weight(key, values[..|values| - 1]) + Bytes(key) + Bytes(values[|values| - 1]) + 2
  }

  ghost function Total(m: Attrs): nat
    decreases |m|
  {
    if m == map[] then 0
    else
      var k :| k in m;
      SmallerMap(m, k);
      Weight(k, m[k]) + Total(m - {k})
  }

  lemma SmallerMap(m: Attrs, k: string)
    requires k in m
    ensures |m - {k}| == |m| - 1
  {
    assert (m - {k}).Keys == m.Keys - {k};
    assert |m| == |m.Keys| && |m - {k}| == |(m - {k}).Keys|;
  }

  /** Any key can be taken out first. */
  lemma {:induction false} TotalWithout(m: Attrs, k: string)
    requires k in m
    ensures Total(m) == Weight(k, m[k]) + Total(m - {k})
    decreases |m|
  {
    var c :| c in m && Total(m) == Weight(c, m[c]) + Total(m - {c});
    SmallerMap(m, c);
    SmallerMap(m, k);
    if c != k {
      TotalWithout(m - {c}, k);
      TotalWithout(m - {k}, c);
      assert m - {c} - {k} == m - {k} - {c};
    }
  }

  lemma TotalAdd(m: Attrs, key: string, value: string)
    ensures Total(Add(m, key, value)) == Total(m) + Bytes(key) + Bytes(value) + 2
  {
    hide Total;
    var m' := Add(m, key, value);
    TotalWithout(m', key);
    var old_ := if key in m then m[key] else [];
    assert m'[key][..|m'[key]| - 1] == old_;
    assert m' - {key} == m - {key};
    if key in m { TotalWithout(m, key); } else { assert m - {key} == m; }
  }

  // ----- the weight of what is read

  function TokenSum(tokens: seq<string>): nat
  {
    if tokens == [] then 0 else TokenSum(tokens[..|tokens| - 1]) + Bytes(tokens[|tokens| - 1]) + 1
  }

  lemma TokenSumAdd(tokens: seq<string>, t: string)
    ensures TokenSum(tokens + [t]) == TokenSum(tokens) + Bytes(t) + 1
  {
    assert (tokens + [t])[..|tokens|] == tokens;
  }

  lemma {:induction false} TokensWeigh(s: string, i: nat, d: char, tokens: seq<string>, cur: string, escaped: bool)
    requires i <= |s|
    ensures TokenSum(TokensFrom(s, i, d, tokens, cur, escaped)) <= TokenSum(tokens) + Bytes(cur) + 1 + Bytes(s[i..])
    decreases |s| - i
  {
    hide TokenSum, Bytes;
    TokenSumAdd(tokens, cur);
    if i < |s| {
      BytesFrom(s, i);
      BytesOne(s[i]);
      if escaped {
        TokensWeigh(s, i + 1, d, tokens, cur + ['\\', s[i]], false);
        BytesCat(cur, ['\\', s[i]]);
        BytesTwo('\\', s[i]);
        BytesOne('\\');
      } else if s[i] == '\\' {
        TokensWeigh(s, i + 1, d, tokens, cur, true);
      } else if s[i] == d {
        TokensWeigh(s, i + 1, d, tokens + [cur], "", false);
        BytesNone();
      } else {
        TokensWeigh(s, i + 1, d, tokens, cur + [s[i]], false);
        BytesCat(cur, [s[i]]);
      }
    }
  }

  lemma BytesNone()
    ensures Bytes("") == 0
  {
  }

  lemma TokenWeighs(attrs: Attrs, token: string, d: char)
    ensures Total(AddToken(attrs, token, d)) <= Total(attrs) + Bytes(token) + 1
  {
    hide Total, Bytes, TrimSpace, UnescapeFrom;
    var t := TrimSpace(token);
    var eq := Index(t, '=');
    BytesTrim(token);
    if t != "" && 0 < eq < |t| && TrimSpace(t[..eq]) != "" {
      var key, value := TrimSpace(t[..eq]), Unescape(t[eq + 1..], d);
      TotalAdd(attrs, key, value);
      BytesTrim(t[..eq]);
      BytesUnescape(t[eq + 1..], 0, d, "", false);
      assert t[eq + 1..][0..] == t[eq + 1..];
      BytesNone();
      assert t == t[..eq] + ([t[eq]] + t[eq + 1..]);
      BytesCat(t[..eq], [t[eq]] + t[eq + 1..]);
      BytesCat([t[eq]], t[eq + 1..]);
      BytesOne(t[eq]);
    }
  }

  lemma {:induction false} TokensTotal(attrs: Attrs, tokens: seq<string>, d: char)
    ensures Total(AddTokens(attrs, tokens, d)) <= Total(attrs) + TokenSum(tokens)
    decreases |tokens|
  {
    hide Total, Bytes, AddToken;
    if tokens != [] {
      var rest, last := tokens[..|tokens| - 1], tokens[|tokens| - 1];
      TokensTotal(attrs, rest, d);
      AddTokensLast(attrs, rest, last, d);
      assert tokens == rest + [last];
      TokenWeighs(AddTokens(attrs, rest, d), last, d);
    }
  }

  lemma {:induction false} AddTokensLast(attrs: Attrs, tokens: seq<string>, last: string, d: char)
    ensures AddTokens(attrs, tokens + [last], d) == AddToken(AddTokens(attrs, tokens, d), last, d)
    decreases |tokens|
  {
    hide AddToken;
    if tokens == [] {
      assert (tokens + [last])[1..] == [];
    } else {
      assert (tokens + [last])[1..] == tokens[1..] + [last];
      AddTokensLast(AddToken(attrs, tokens[0], d), tokens[1..], last, d);
    }
  }

  /** Whatever the delimiter, a text never gives attributes heavier than itself. */
  lemma AttrsWeigh(s: string, d: char)
    ensures Total(AttrsOf(s, d)) <= Bytes(s) + 1
  {
    hide Total, Bytes, TokensFrom, AddTokens, TokenSum;
    TokensWeigh(s, 0, d, [], "", false);
    TokensTotal(map[], TokensFrom(s, 0, d, [], "", false), d);
    assert s[0..] == s;
    NothingWeighs();
  }

  lemma NothingWeighs()
    ensures Total(map[]) == 0 && Bytes("") == 0 && TokenSum([]) == 0
  {
  }

  // ----- the weight of what is printed

  lemma BytesPair(p: Pair, d: char)
    ensures Bytes(PrintPair(p, d)) == Bytes(p.key) + 1 + Bytes(p.value)
  {
    var e := EscapeValue(p.value, d, p.letters);
    BytesCat(p.key, "=" + e);
    BytesCat("=", e);
    BytesOne('=');
    BytesEscape(p.value, d, p.letters);
  }

  /** Printed pairs are one byte short of the weight of their attributes. */
  lemma {:induction false} PrintedWeighs(ps: seq<Pair>, d: char, attrs: Attrs)
    requires ps != [] && d != '\\'
    ensures Total(Collected(attrs, ps)) == Total(attrs) + Bytes(PrintPairs(ps, d)) + 1
    decreases |ps|
  {
    hide Total, Bytes, Add, PrintPair;
    TotalAdd(attrs, ps[0].key, ps[0].value);
    BytesPair(ps[0], d);
    var attrs' := Add(attrs, ps[0].key, ps[0].value);
    if |ps| == 1 {
      assert Collected(attrs', ps[1..]) == attrs';
    } else {
      PrintedWeighs(ps[1..], d, attrs');
      BytesCat(PrintPair(ps[0], d), [d] + PrintPairs(ps[1..], d));
      BytesCat([d], PrintPairs(ps[1..], d));
      BytesOne(d);
    }
  }
}
