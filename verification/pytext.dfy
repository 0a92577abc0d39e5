/** The few Python string operations the parser and the upload endpoints rely on. */
module PyText {

  /** Python's `str.isspace`: the characters `str.strip()` removes by default. */
  predicate IsSpace(c: char) {
    || c == ' '
    || ('\t' <= c <= '\r')
    || ('\U{1c}' <= c <= '\U{1f}')
    || c == '\U{85}'
    || c == '\U{a0}'
    || c == '\U{1680}'
    || ('\U{2000}' <= c <= '\U{200a}')
    || c == '\U{2028}'
    || c == '\U{2029}'
    || c == '\U{202f}'
    || c == '\U{205f}'
    || c == '\U{3000}'
  }

  predicate AllSpace(s: string) {
    forall i :: 0 <= i < |s| ==> IsSpace(s[i])
  }

  /** `s.lstrip()`. */
  function StripLeft(s: string): string {
    if |s| > 0 && IsSpace(s[0]) then StripLeft(s[1..]) else s
  }

  /** `s.rstrip()`. */
  function StripRight(s: string): string {
    if |s| > 0 && IsSpace(s[|s| - 1]) then StripRight(s[..|s| - 1]) else s
  }

  /** Neither end of `s` is whitespace. */
  predicate Trimmed(s: string) {
    s == [] || (!IsSpace(s[0]) && !IsSpace(s[|s| - 1]))
  }

  /** `s.strip()`: `s` with its whitespace padding removed on both sides. */
  function Strip(s: string): string {
    StripRight(StripLeft(s))
  }

  /** `lstrip` keeps the longest suffix that does not start with whitespace:
      what it drops is all whitespace. */
  lemma {:induction false} StripLeftSpec(s: string)
    ensures var r := StripLeft(s);
            && |r| <= |s| && r == s[|s| - |r|..]
            && (r == [] || !IsSpace(r[0]))
            && AllSpace(s[..|s| - |r|])
    decreases |s|
  {
    if |s| > 0 && IsSpace(s[0]) {
      var t := s[1..];
      StripLeftSpec(t);
      var r := StripLeft(t);
      var k := |t| - |r|;
      assert s[k + 1..] == t[k..];
      assert s[..k + 1] == [s[0]] + t[..k];
      AllSpaceCons(s[0], t[..k]);
    }
  }

  lemma AllSpaceCons(c: char, t: string)
    requires IsSpace(c) && AllSpace(t)
    ensures AllSpace([c] + t)
  {
    assert forall i :: 1 <= i < |t| + 1 ==> ([c] + t)[i] == t[i - 1];
  }

  /** `rstrip` keeps the longest prefix that does not end with whitespace:
      what it drops is all whitespace. */
  lemma {:induction false} StripRightSpec(s: string)
    ensures var r := StripRight(s);
            && |r| <= |s| && r == s[..|r|]
            && (r == [] || !IsSpace(r[|r| - 1]))
            && AllSpace(s[|r|..])
    decreases |s|
  {
    if |s| > 0 && IsSpace(s[|s| - 1]) {
      var t := s[..|s| - 1];
      StripRightSpec(t);
      var r := StripRight(t);
      assert t[..|r|] == s[..|r|];
      assert forall i :: 0 <= i < |s| - 1 - |r| ==> s[|r|..][i] == t[|r|..][i];
    }
  }

  /** The result of `strip` has whitespace at neither end. */
  lemma StripTrimmed(s: string)
    ensures Trimmed(Strip(s))
  {
    var l := StripLeft(s);
    StripLeftSpec(s);
    StripRightSpec(l);
    var r := StripRight(l);
    assert r != [] ==> r[0] == l[0];
  }

  /** Stripping removes whitespace padding on both sides and nothing else. */
  lemma {:induction false} StripPadded(pre: string, core: string, post: string)
    requires AllSpace(pre) && AllSpace(post)
    requires core == [] || (!IsSpace(core[0]) && !IsSpace(core[|core| - 1]))
    ensures Strip(pre + core + post) == core
  {
    if core == [] {
      assert pre + core + post == pre + post;
      StripLeftAllSpace(pre + post);
      assert StripRight([]) == [];
    } else {
      StripLeftPadded(pre, core + post);
      assert pre + core + post == pre + (core + post);
      StripRightPadded(core, post);
    }
  }

  lemma {:induction false} StripLeftAllSpace(s: string)
    requires AllSpace(s)
    ensures StripLeft(s) == []
    decreases |s|
  {
    if s != [] {
      StripLeftAllSpace(s[1..]);
    }
  }

  lemma {:induction false} StripLeftPadded(pre: string, rest: string)
    requires AllSpace(pre)
    requires rest == [] || !IsSpace(rest[0])
    ensures StripLeft(pre + rest) == rest
    decreases |pre|
  {
    if pre != [] {
      assert (pre + rest)[1..] == pre[1..] + rest;
      StripLeftPadded(pre[1..], rest);
    }
  }

  lemma {:induction false} StripRightPadded(rest: string, post: string)
    requires AllSpace(post)
    requires rest == [] || !IsSpace(rest[|rest| - 1])
    ensures StripRight(rest + post) == rest
    decreases |post|
  {
    if post == [] {
      assert rest + post == rest;
    } else {
      var n := |rest + post|;
      assert (rest + post)[..n - 1] == rest + post[..|post| - 1];
      StripRightPadded(rest, post[..|post| - 1]);
    }
  }

  lemma {:induction false} StripRightKeepsPrefix(p: string, rest: string)
    requires p != [] && !IsSpace(p[|p| - 1])
    ensures p <= StripRight(p + rest)
    decreases |rest|
  {
    if rest != [] {
      var n := |p + rest|;
      if IsSpace((p + rest)[n - 1]) {
        assert (p + rest)[..n - 1] == p + rest[..|rest| - 1];
        StripRightKeepsPrefix(p, rest[..|rest| - 1]);
      }
    }
  }

  /** `r` is `s` with whitespace padding removed from both sides: a slice of
      `s` with no whitespace at either end and only whitespace around it. */
  ghost predicate StrippedFrom(s: string, r: string) {
    exists a, b :: StrippedAt(s, r, a, b)
  }

  /** `r` is `s[a..b]`, with no whitespace at either end and only whitespace
      outside it. */
  predicate StrippedAt(s: string, r: string, a: int, b: int) {
    0 <= a <= b <= |s| && s[a..b] == r && AllSpace(s[..a]) && AllSpace(s[b..]) && Trimmed(r)
  }

  /** `strip` is characterised by its padding: `s.strip() == r` exactly when
      `r` is `s` with whitespace padding removed. */
  lemma StripIff(s: string, r: string)
    ensures Strip(s) == r <==> StrippedFrom(s, r)
  {
    StripIsStripped(s);
    if StrippedFrom(s, r) {
      StrippedIsStrip(s, r);
    }
  }

  /** What `strip` returns is its argument with the padding removed. */
  lemma StripIsStripped(s: string)
    ensures StrippedFrom(s, Strip(s))
  {
    var l := StripLeft(s);
    var r := StripRight(l);
    StripLeftSpec(s);
    StripRightSpec(l);
    StripTrimmed(s);
    var a := |s| - |l|;
    var b := a + |r|;
    assert s[a..b] == r;
    assert s[b..] == l[|r|..];
    assert StrippedAt(s, r, a, b);
  }

  /** Any way of removing whitespace padding gives what `strip` returns. */
  lemma StrippedIsStrip(s: string, r: string)
    requires StrippedFrom(s, r)
    ensures Strip(s) == r
  {
    var a, b :| StrippedAt(s, r, a, b);
    assert s == s[..a] + r + s[b..];
    StripPadded(s[..a], r, s[b..]);
  }

  /** Stripping `pad + p + rest` keeps `p` in front when `p` neither starts
      nor ends with whitespace. */
  lemma StripPaddedKeepsPrefix(pad: string, p: string, rest: string)
    requires AllSpace(pad)
    requires p != [] && !IsSpace(p[0]) && !IsSpace(p[|p| - 1])
    ensures p <= Strip(pad + p + rest)
  {
    assert pad + p + rest == pad + (p + rest);
    StripLeftPadded(pad, p + rest);
    StripRightKeepsPrefix(p, rest);
  }

  /** Python's `str.lower` restricted to ASCII letters. */
  function LowerChar(c: char): char {
    if 'A' <= c <= 'Z' then (c as int + 32) as char else c
  }

  /** `s.lower()`, one character at a time. */
  function Lower(s: string): string {
    if s == [] then [] else [LowerChar(s[0])] + Lower(s[1..])
  }

  /** Lower-casing maps each character on its own and keeps the length. */
  lemma {:induction false} LowerAt(s: string)
    ensures |Lower(s)| == |s|
    ensures forall i :: 0 <= i < |s| ==> Lower(s)[i] == LowerChar(s[i])
  {
    if s != [] {
      LowerAt(s[1..]);
      assert forall i :: 1 <= i < |s| ==> Lower(s)[i] == Lower(s[1..])[i - 1];
    }
  }

  /** Lower-casing leaves whitespace alone. */
  lemma LowerKeepsSpace(c: char)
    ensures IsSpace(c) ==> LowerChar(c) == c
  {
  }

  /** Lower-casing preserves the prefix order. */
  lemma LowerPrefix(a: string, b: string)
    requires a <= b
    ensures Lower(a) <= Lower(b)
  {
    LowerAt(a);
    LowerAt(b);
  }

  /** `s.isdigit()` for ASCII digits. */
  predicate IsDigit(c: char) {
    '0' <= c <= '9'
  }
}
