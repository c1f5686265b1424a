/** The second reading of an attribute text that the LEEF header loop has already unescaped: where a
    printed backslash has become a single one. */
module LeefTwice {
  import opened Text
  import opened Leef
  import opened LeefPrint

  // ----- what the header loop makes of a printed value

  function ImageByte(c: char, letters: bool): string
  {
    if c == '\\' then "\\" else EscapeByte(c, '\t', letters)
  }

  function Image(v: string, letters: bool): string
  {
    if v == "" then "" else ImageByte(v[0], letters) + Image(v[1..], letters)
  }

  /** A byte that a backslash in front of it does not change. */
  predicate Follows(c: char, letters: bool)
  {
    c !in {'\\', 't', 'n', 'r', '\t'} && (letters ==> c != '\n' && c != '\r')
  }

  /** Every backslash of the value stands before such a byte. */
  predicate Survives(v: string, letters: bool)
  {
    forall i :: 0 <= i < |v| && v[i] == '\\' ==> i + 1 < |v| && Follows(v[i + 1], letters)
  }

  lemma SurvivesTail(v: string, letters: bool)
    requires v != ""
    ensures v[0] != '\\' ==> (Survives(v, letters) <==> Survives(v[1..], letters))
    ensures |v| > 1 && v[0] == '\\' && Follows(v[1], letters) ==> (Survives(v, letters) <==> Survives(v[2..], letters))
    ensures v[0] == '\\' && Survives(v, letters) ==> |v| > 1 && Follows(v[1], letters)
  {
    if v[0] != '\\' {
      assert forall i :: 0 <= i < |v| - 1 ==> v[1..][i] == v[i + 1];
      if Survives(v[1..], letters) {
        forall i | 0 <= i < |v| && v[i] == '\\' ensures i + 1 < |v| && Follows(v[i + 1], letters) {
          assert v[1..][i - 1] == '\\';
        }
      }
    }
    if |v| > 1 && v[0] == '\\' && Follows(v[1], letters) {
      assert forall i :: 0 <= i < |v| - 2 ==> v[2..][i] == v[i + 2];
      if Survives(v[2..], letters) {
        forall i | 0 <= i < |v| && v[i] == '\\' ensures i + 1 < |v| && Follows(v[i + 1], letters) {
          if i > 1 { assert v[2..][i - 2] == '\\'; }
        }
      }
    }
  }

  // ----- the token loop and the unescape loop, read from the front

  /** The bytes a token holds when it starts here: up to the first tab that is not escaped, or the
      end; a backslash at the very end is dropped. */
  function Tok(t: string): string
  {
    if t == "" || t[0] == '\t' || t == "\\" then ""
    else if t[0] == '\\' then t[..2] + Tok(t[2..])
    else [t[0]] + Tok(t[1..])
  }

  function Un(x: string): string
  {
    if x == "" then ""
    else if x[0] != '\\' then [x[0]] + Un(x[1..])
    else if |x| == 1 then "\\"
    else Unescaped(x[1], '\t') + Un(x[2..])
  }

  lemma UnStep(x: string)
    requires x != "" && x != "\\"
    ensures var k := if x[0] == '\\' then 2 else 1;
      k <= |x| && Un(x) == (if k == 2 then Unescaped(x[1], '\t') else [x[0]]) + Un(x[k..])
  {
  }

  lemma {:induction false} UnescapeIsUn(s: string, i: nat, out: string)
    requires i <= |s|
    ensures UnescapeFrom(s, i, '\t', out, false) == out + Un(s[i..])
    decreases |s| - i
  {
    var x := s[i..];
    if x != "" && x != "\\" {
      UnStep(x);
      hide Un;
      var k := if x[0] == '\\' then 2 else 1;
      var u := if k == 2 then Unescaped(x[1], '\t') else [x[0]];
      assert x[k..] == s[i + k..] && x[0] == s[i];
      if k == 2 { assert x[1] == s[i + 1]; }
      UnescapeIsUn(s, i + k, out + u);
      assert out + u + Un(x[k..]) == out + (u + Un(x[k..]));
    } else if x == "\\" {
      assert s[i] == x[0] && i + 1 == |s|;
    }
  }

  lemma UnescapeUn(y: string)
    ensures Unescape(y, '\t') == Un(y)
  {
    hide UnescapeFrom, Un;
    UnescapeIsUn(y, 0, "");
    assert y[0..] == y && "" + Un(y) == Un(y);
  }

  /** The value that is read when its text starts here. */
  function Read(t: string): string { Un(TrimRight(Tok(t))) }

  lemma {:induction false} TrimRightCat(a: string, b: string)
    ensures TrimRight(a + b) == if TrimRight(b) == "" then TrimRight(a) else a + TrimRight(b)
    decreases |b|
  {
    if b == "" {
      assert a + b == a;
    } else {
      var n := |b| - 1;
      assert (a + b)[..|a + b| - 1] == a + b[..n] && (a + b)[|a + b| - 1] == b[n];
      if AsciiSpace(b[n]) { TrimRightCat(a, b[..n]); }
    }
  }

  lemma TrimOne(c: char)
    ensures TrimRight([c]) == if AsciiSpace(c) then "" else [c]
  {
    assert [c][..0] == "";
  }

  lemma ReadEnd(t: string)
    requires t == "" || t == "\\" || t[0] == '\t'
    ensures Read(t) == ""
  {
  }

  lemma ReadPlain(c: char, t: string)
    requires c != '\\' && c != '\t'
    ensures Read([c] + t) == [c] + Read(t) || Read([c] + t) == ""
    ensures !AsciiSpace(c) ==> Read([c] + t) == [c] + Read(t)
  {
    hide TrimRight;
    var x := Tok(t);
    assert ([c] + t)[1..] == t;
    assert ([c] + t)[0] == c && [c] + t != "\\";
    assert Tok([c] + t) == [c] + x;
    TrimRightCat([c], x);
    TrimOne(c);
    if TrimRight(x) == "" {
      assert [c][1..] == "";
      assert Un([c]) == [c] + Un("");
    } else {
      assert ([c] + TrimRight(x))[1..] == TrimRight(x);
    }
  }

  lemma ReadEscape(c: char, t: string)
    ensures Read(['\\', c] + t) == Unescaped(c, '\t') + Read(t) || (AsciiSpace(c) && Read(['\\', c] + t) == "\\")
  {
    hide TrimRight;
    var e, x := ['\\', c], Tok(t);
    assert (e + t)[..2] == e && (e + t)[2..] == t;
    assert Tok(e + t) == e + x;
    TrimRightCat(e, x);
    TrimRightCat("\\", [c]);
    assert "\\" + [c] == e;
    TrimOne(c);
    TrimOne('\\');
    if TrimRight(x) == "" {
      if !AsciiSpace(c) {
        assert e[2..] == "";
        assert Un(e) == Unescaped(c, '\t') + Un("");
      }
    } else {
      var y := TrimRight(x);
      assert (e + y)[1] == c && (e + y)[2..] == y;
    }
  }

  // ----- a value that does not survive is read as another one

  function Slashes(n: nat): string { if n == 0 then "" else "\\" + Slashes(n - 1) }

  /** The text behind a value: nothing, or the next pair. */
  predicate TailOk(tail: string)
  {
    tail == "" || (|tail| > 1 && tail[0] == '\t' && !AsciiSpace(tail[1]) && tail[1] != '\\')
  }

  lemma TailRead(tail: string)
    requires TailOk(tail)
    ensures Read(tail) == "" && (Read("\\" + tail) == "" || (Read("\\" + tail) != "" && Read("\\" + tail)[0] == '\t'))
  {
    ReadEnd(tail);
    if tail == "" {
      assert "\\" + tail == "\\";
      ReadEnd("\\");
    } else {
      var rest := tail[2..];
      assert "\\" + tail == ['\\', '\t'] + ([tail[1]] + rest);
      assert tail[1] != '\t';
      ReadPlain(tail[1], rest);
      NotTrimmed(tail[1], rest);
    }
  }

  /** An escape in front of a byte that is not trimmed is read whole. */
  lemma NotTrimmed(c: char, t: string)
    requires !AsciiSpace(c) && c != '\\' && c != '\t'
    ensures Read(['\\', '\t'] + ([c] + t)) == "\t" + Read([c] + t)
  {
    hide TrimRight;
    var e, y := ['\\', '\t'], [c] + t;
    assert (e + y)[..2] == e && (e + y)[2..] == y;
    assert y[1..] == t;
    assert Tok(y) == [c] + Tok(t);
    TrimRightCat([c], Tok(t));
    TrimOne(c);
    TrimRightCat(e, Tok(y));
    var z := TrimRight(Tok(y));
    assert z != "" && (e + z)[1] == '\t' && (e + z)[2..] == z;
  }

  /** The second reading of `w` is never `w` with backslashes in front of it, and it is `w` itself only
      if `w` survives. */
  lemma {:induction false} ReadTwice(w: string, letters: bool, tail: string, n: nat)
    requires TailOk(tail) && (n > 0 || !Survives(w, letters))
    ensures Read(Image(w, letters) + tail) != Slashes(n) + w
    decreases |w|, 2
  {
    hide Read, Survives, Follows;
    if w == "" {
      assert n > 0 by { NoneSurvives(letters); }
      TailRead(tail);
      assert Image(w, letters) + tail == tail;
    } else if w[0] != '\\' {
      SurvivesTail(w, letters);
      ReadTwicePlain(w, letters, tail, n);
    } else {
      SurvivesTail(w, letters);
      ReadTwiceSlash(w, letters, tail, n);
    }
  }

  lemma NoneSurvives(letters: bool)
    ensures Survives("", letters)
  {
  }

  lemma SlashFirst(n: nat, w: string)
    requires n > 0
    ensures (Slashes(n) + w)[0] == '\\' && (Slashes(n) + w)[1..] == Slashes(n - 1) + w
  {
  }

  lemma {:induction false} SlashLast(n: nat)
    ensures Slashes(n) + "\\" == "\\" + Slashes(n) && |Slashes(n)| == n
  {
    if n > 0 {
      SlashLast(n - 1);
      var rest := Slashes(n - 1);
      assert ("\\" + rest) + "\\" == "\\" + (rest + "\\");
    }
  }

  lemma SlashesNext(n: nat, w: string)
    ensures Slashes(n) + ("\\" + w) == Slashes(n + 1) + w && |Slashes(n)| == n
  {
    hide Slashes;
    SlashLast(n);
    SlashMore(n);
    assert Slashes(n) + ("\\" + w) == Slashes(n) + "\\" + w;
  }

  lemma SlashMore(n: nat)
    ensures Slashes(n + 1) == "\\" + Slashes(n)
  {
  }

  /** The first byte, when it is no backslash, is read right or trimmed away. */
  lemma ReadFirst(c: char, letters: bool, t: string)
    requires c != '\\'
    ensures var r := Read(ImageByte(c, letters) + t); r == [c] + Read(t) || r == "" || r == "\\"
  {
    hide Read;
    var e := ImageByte(c, letters);
    if |e| == 1 {
      ReadPlain(c, t);
    } else {
      assert e == ['\\', e[1]] && Unescaped(e[1], '\t') == [c];
      ReadEscape(e[1], t);
    }
  }

  lemma ReadTwicePlain(w: string, letters: bool, tail: string, n: nat)
    requires w != "" && w[0] != '\\' && TailOk(tail) && (n > 0 || !Survives(w[1..], letters))
    ensures Read(Image(w, letters) + tail) != Slashes(n) + w
    decreases |w|, 1
  {
    hide Read, Survives, Follows, Slashes, ImageByte;
    var c, w', e := w[0], w[1..], ImageByte(w[0], letters);
    var t := Image(w', letters) + tail;
    assert Image(w, letters) + tail == e + t;
    hide Image;
    ReadFirst(c, letters, t);
    if n > 0 {
      SlashFirst(n, w);
      SlashesNext(n, w);
    } else {
      if w' == "" { NoneSurvives(letters); }
      ReadTwice(w', letters, tail, 0);
      NoSlashes(w);
      NoSlashes(w');
      assert w == [c] + w';
    }
  }

  lemma ReadTwiceSlash(w: string, letters: bool, tail: string, n: nat)
    requires w != "" && w[0] == '\\' && TailOk(tail)
    requires n > 0 || !(|w| > 1 && Follows(w[1], letters)) || !Survives(w[2..], letters)
    ensures Read(Image(w, letters) + tail) != Slashes(n) + w
    decreases |w|, 1
  {
    hide Read, Survives, Follows, Slashes;
    var w' := w[1..];
    assert w == "\\" + w';
    if w' == "" {
      SlashAtEnd(letters, tail, n);
    } else {
      var t, e := Image(w'[1..], letters) + tail, ImageByte(w'[0], letters);
      assert Image(w, letters) == "\\" + Image(w', letters);
      assert Image(w, letters) + tail == "\\" + (e + t);
      assert w'[1..] == w[2..] && w'[0] == w[1];
      if w'[0] == '\\' {
        DoubleSlash(w'[1..], letters, tail, n);
        assert w' == "\\" + w'[1..];
      } else if |e| == 2 {
        SlashThenEscape(w', letters, t, n);
      } else {
        PlainAfterSlash(w', letters, tail, n);
      }
    }
  }

  /** A backslash at the end of a value is dropped, or takes the delimiter into the value. */
  lemma SlashAtEnd(letters: bool, tail: string, n: nat)
    requires TailOk(tail)
    ensures Read(Image("\\", letters) + tail) != Slashes(n) + "\\"
  {
    hide Read;
    TailRead(tail);
    assert "\\"[1..] == "" && Image("", letters) == "";
    assert Image("\\", letters) + tail == "\\" + tail;
    SlashesNext(n, "");
    assert "\\" + "" == "\\";
    SlashFirst(n + 1, "");
  }

  lemma SlashThenEscape(w: string, letters: bool, t: string, n: nat)
    requires w != "" && w[0] != '\\' && |ImageByte(w[0], letters)| == 2
    ensures Read("\\" + (ImageByte(w[0], letters) + t)) != Slashes(n) + ("\\" + w)
  {
    hide Read, Slashes;
    var e, target := ImageByte(w[0], letters), Slashes(n) + ("\\" + w);
    EscapeAfterSlash(e[1], t);
    assert e == ['\\', e[1]];
    SlashesNext(n, w);
    SlashFirst(n + 1, w);
    assert target[1..] == Slashes(n) + w;
    if n > 0 { SlashFirst(n, w); } else { NoSlashes(w); }
    assert target[1] == target[1..][0];
  }

  lemma NoSlashes(w: string)
    ensures Slashes(0) + w == w
  {
  }

  /** Two backslashes are read as one. */
  lemma DoubleSlash(rest: string, letters: bool, tail: string, n: nat)
    requires TailOk(tail)
    ensures Read("\\" + ("\\" + (Image(rest, letters) + tail))) != Slashes(n) + ("\\" + ("\\" + rest))
    decreases |rest| + 2, 0
  {
    hide Read, Slashes, Image;
    var t := Image(rest, letters) + tail;
    assert "\\" + ("\\" + t) == ['\\', '\\'] + t;
    ReadEscape('\\', t);
    SlashEscape();
    ReadTwice(rest, letters, tail, n + 1);
    assert Slashes(n) + ("\\" + ("\\" + rest)) == Slashes(n + 2) + rest by {
      SlashesNext(n, "\\" + rest);
      SlashesNext(n + 1, rest);
    }
    SlashFirst(n + 2, rest);
    assert ("\\" + Read(t))[1..] == Read(t);
  }

  lemma SlashEscape()
    ensures Unescaped('\\', '\t') == "\\" && !AsciiSpace('\\')
  {
  }

  /** A backslash in front of a printed control character takes away its escape. */
  lemma EscapeAfterSlash(y: char, t: string)
    requires y in {'\t', 't', 'n', 'r'}
    ensures var r := Read("\\" + (['\\', y] + t));
      if y == '\t' then r == "\\" else |r| > 1 && r[1] == y
  {
    hide Read;
    assert "\\" + (['\\', y] + t) == ['\\', '\\'] + ([y] + t);
    ReadEscape('\\', [y] + t);
    if y == '\t' { ReadEnd([y] + t); } else { ReadPlain(y, t); }
  }

  lemma PlainAfterSlash(w: string, letters: bool, tail: string, n: nat)
    requires w != "" && w[0] != '\\' && ImageByte(w[0], letters) == [w[0]] && TailOk(tail)
    requires n > 0 || !Follows(w[0], letters) || !Survives(w[1..], letters)
    ensures Read("\\" + (ImageByte(w[0], letters) + (Image(w[1..], letters) + tail))) != Slashes(n) + ("\\" + w)
    decreases |w| + 1, 0
  {
    hide Read, Survives, Slashes, Image;
    var c, rest := w[0], w[1..];
    var t := Image(rest, letters) + tail;
    assert "\\" + ([c] + t) == ['\\', c] + t;
    ReadEscape(c, t);
    SlashesNext(n, w);
    SlashFirst(n + 1, w);
    var target := Slashes(n) + ("\\" + w);
    assert target[1..] == Slashes(n) + w;
    if c == 't' || c == 'n' || c == 'r' {
      assert Unescaped(c, '\t')[0] != '\\';
    } else {
      assert Unescaped(c, '\t') == ['\\', c];
      if n > 0 {
        SlashFirst(n, w);
        assert target[1] == target[1..][0] == '\\';
      } else {
        NoSlashes(w);
        NoSlashes(rest);
        assert w == [c] + rest;
        ReadTwice(rest, letters, tail, 0);
        assert target[2..] == rest;
        assert (['\\', c] + Read(t))[2..] == Read(t);
      }
    }
  }
}
