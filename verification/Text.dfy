/** Byte-string helpers shared by the decoders.  A string is the seq of its bytes. */
module Text {

  /** strings.TrimSpace's set, for ASCII input. */
  predicate AsciiSpace(c: char) { c in {' ', '\t', '\n', '\r', 11 as char, 12 as char} }

  function TrimLeft(s: string): string
  {
    if s != "" && AsciiSpace(s[0]) then TrimLeft(s[1..]) else s
  }

  function TrimRight(s: string): string
  {
    if s != "" && AsciiSpace(s[|s| - 1]) then TrimRight(s[..|s| - 1]) else s
  }

  function TrimSpace(s: string): string { TrimRight(TrimLeft(s)) }

  /** bytes.TrimRight(line, "\r\n"). */
  function TrimNewline(s: string): string
  {
    if s != "" && s[|s| - 1] in {'\r', '\n'} then TrimNewline(s[..|s| - 1]) else s
  }

  predicate HasPrefix(s: string, p: string) { |p| <= |s| && s[..|p|] == p }

  function TrimPrefix(s: string, p: string): string { if HasPrefix(s, p) then s[|p|..] else s }

  /** The index of the first `d`, or |s|. */
  function Index(s: string, d: char): (k: nat)
    ensures k <= |s| && d !in s[..k] && (k < |s| ==> s[k] == d)
  {
    if s == "" || s[0] == d then 0 else
      assert s[..1 + Index(s[1..], d)] == [s[0]] + s[1..][..Index(s[1..], d)];
      1 + Index(s[1..], d)
  }

  /** The first delimiter after a part that has none. */
  lemma {:induction false} IndexSkip(a: string, b: string, d: char)
    requires d !in a
    ensures Index(a + b, d) == |a| + Index(b, d)
  {
    if a == "" {
      assert a + b == b;
    } else {
      assert (a + b)[1..] == a[1..] + b;
      IndexSkip(a[1..], b, d);
    }
  }

  /** `part` stands in `s` at `pos`. */
  predicate At(s: string, pos: nat, part: string)
  {
    pos + |part| <= |s| && s[pos..pos + |part|] == part
  }

  lemma AtSplit(s: string, pos: nat, a: string, b: string)
    requires At(s, pos, a + b)
    ensures At(s, pos, a) && At(s, pos + |a|, b)
  {
    assert s[pos..pos + |a|] == s[pos..pos + |a + b|][..|a|] == a;
    assert s[pos + |a|..pos + |a| + |b|] == s[pos..pos + |a + b|][|a|..] == b;
  }

  lemma AtByte(s: string, pos: nat, c: char)
    requires At(s, pos, [c])
    ensures pos < |s| && s[pos] == c
  {
    assert s[pos] == s[pos..pos + 1][0];
  }

  lemma AtAppend(a: string, b: string)
    ensures At(a + b, 0, a) && At(a + b, |a|, b)
  {
  }

  lemma AtSlice(s: string, pos: nat, part: string)
    requires At(s, pos, part)
    ensures pos + |part| <= |s| && s[pos..pos + |part|] == part
    ensures forall k :: 0 <= k < |part| ==> s[pos + k] == part[k]
  {
    forall k | 0 <= k < |part|
      ensures s[pos + k] == part[k]
    {
      assert s[pos + k] == s[pos..pos + |part|][k];
    }
  }
}
