/**
 * String helpers shared by the model: the few Python `str` operations the
 * application relies on (`lower`, `capitalize`, `split('-')[0]`, `strip`,
 * `replace(pat, '')`), restricted to ASCII letters and ASCII white space.
 */
module Text {

  /** Python `str.lower` on one character (ASCII letters only). */
  function LowerChar(c: char): char
  {
    if 'A' <= c <= 'Z' then (c as int + 32) as char else c
  }

  /** Python `str.upper` on one character (ASCII letters only). */
  function UpperChar(c: char): char
  {
    if 'a' <= c <= 'z' then (c as int - 32) as char else c
  }

  function Lower(s: string): (r: string)
    ensures |r| == |s|
    ensures forall i :: 0 <= i < |s| ==> r[i] == LowerChar(s[i])
  {
    if s == [] then [] else [LowerChar(s[0])] + Lower(s[1..])
  }

  lemma LowerIdempotent(s: string)
    ensures Lower(Lower(s)) == Lower(s)
  {
  }

  /** Python `str.capitalize`: the first character upper case, the rest lower case. */
  function Capitalize(s: string): (r: string)
    ensures |r| == |s|
    ensures s != [] ==> r[0] == UpperChar(s[0]) && r[1..] == Lower(s[1..])
  {
    if s == [] then [] else [UpperChar(s[0])] + Lower(s[1..])
  }

  /** Python `s.split(sep)[0]`: everything before the first `sep`, or all of `s`. */
  function BeforeFirst(s: string, sep: char): (r: string)
    ensures r <= s
    ensures sep !in r
    ensures |r| < |s| ==> s[|r|] == sep
  {
    if s == [] || s[0] == sep then [] else [s[0]] + BeforeFirst(s[1..], sep)
  }

  /**
   * Python `"-".join(code.split('-')[:2])`: the code up to (not including) its
   * second '-', or all of it when it has fewer than two.
   */
  function FirstTwoSubtags(code: string): (r: string)
    ensures r <= code
    ensures BeforeFirst(code, '-') <= r
    ensures forall i, j :: 0 <= i < j < |r| && r[i] == '-' ==> r[j] != '-'
    ensures |r| < |code| ==> code[|r|] == '-' && '-' in r
  {
    var first := BeforeFirst(code, '-');
    if |first| == |code| then code
    else
      var rest := code[|first| + 1..];
      var second := BeforeFirst(rest, '-');
      var r := first + "-" + second;
      assert code == first + "-" + rest;
      OneDash(first, second);
      assert |r| < |code| ==> |second| < |rest| && code[|r|] == rest[|second|];
      r
  }

  /** Two dash-free parts joined by one '-' hold exactly that one '-'. */
  lemma OneDash(a: string, b: string)
    requires '-' !in a && '-' !in b
    ensures var r := a + "-" + b; forall i, j :: 0 <= i < j < |r| && r[i] == '-' ==> r[j] != '-'
  {
    var r := a + "-" + b;
    forall i | 0 <= i < |r| && i != |a| ensures r[i] != '-' {
      if i < |a| { assert r[i] == a[i]; } else { assert r[i] == b[i - |a| - 1]; }
    }
  }

  /** What Python's `str.strip()` removes (the ASCII part of it). */
  predicate IsSpace(c: char)
  {
    c == ' ' || c == '\t' || c == '\n' || c == '\r' || c == '\U{B}' || c == '\U{C}'
    || '\U{1C}' <= c <= '\U{1F}'
  }

  function TrimLeft(s: string): (r: string)
    ensures |r| <= |s| && r == s[|s| - |r|..]
    ensures r == [] || !IsSpace(r[0])
    ensures forall i :: 0 <= i < |s| - |r| ==> IsSpace(s[i])
  {
    if s != [] && IsSpace(s[0]) then TrimLeft(s[1..]) else s
  }

  function TrimRight(s: string): (r: string)
    ensures |r| <= |s| && r == s[..|r|]
    ensures r == [] || !IsSpace(r[|r| - 1])
    ensures forall i :: |r| <= i < |s| ==> IsSpace(s[i])
  {
    if s != [] && IsSpace(s[|s| - 1]) then TrimRight(s[..|s| - 1]) else s
  }

  /**
   * Python `str.strip()`: the slice of `s` left after removing white space at
   * both ends, which itself neither starts nor ends with white space.
   */
  function Strip(s: string): (r: string)
    ensures exists i, j :: 0 <= i <= j <= |s| && r == s[i..j]
              && (forall k :: 0 <= k < i ==> IsSpace(s[k])) && (forall k :: j <= k < |s| ==> IsSpace(s[k]))
    ensures r == [] || (!IsSpace(r[0]) && !IsSpace(r[|r| - 1]))
  {
    var l := TrimLeft(s);
    var r := TrimRight(l);
    assert r == s[|s| - |l|..|s| - |l| + |r|];
    r
  }

  /**
   * Python `s.replace(pat, '')`: scans left to right and drops every
   * non-overlapping occurrence of `pat`.
   */
  function RemoveAll(s: string, pat: string): (r: string)
    requires pat != []
    ensures |r| <= |s|
    decreases |s|
  {
    if s == [] then []
    else if pat <= s then RemoveAll(s[|pat|..], pat)
    else [s[0]] + RemoveAll(s[1..], pat)
  }

  /** A text in which `pat` does not occur passes through unchanged. */
  lemma {:induction false} RemoveAllAbsent(s: string, pat: string)
    requires pat != []
    requires forall i :: 0 <= i <= |s| ==> !(pat <= s[i..])
    ensures RemoveAll(s, pat) == s
    decreases |s|
  {
    if s != [] {
      assert s[0..] == s;
      assert forall i :: 0 <= i <= |s| - 1 ==> s[1..][i..] == s[i + 1..];
      RemoveAllAbsent(s[1..], pat);
    }
  }

  /** A text whose first character cannot start `pat` keeps that character. */
  lemma RemoveAllStep(s: string, pat: string)
    requires pat != [] && s != [] && s[0] != pat[0]
    ensures RemoveAll(s, pat) == [s[0]] + RemoveAll(s[1..], pat)
  {
    assert !(pat <= s);
  }

  /**
   * Text without a back-quote can hold no occurrence of a pattern that starts
   * with one, so it passes through unchanged ahead of whatever follows it.
   */
  lemma {:induction false} RemoveAllKeepsPlain(a: string, b: string, pat: string)
    requires pat != [] && pat[0] == '`' && '`' !in a
    ensures RemoveAll(a + b, pat) == a + RemoveAll(b, pat)
    decreases |a|
  {
    if a == [] {
      assert a + b == b;
    } else {
      var ab := a + b;
      assert ab[0] == a[0] && ab[1..] == a[1..] + b;
      RemoveAllStep(ab, pat);
      RemoveAllKeepsPlain(a[1..], b, pat);
      assert a == [a[0]] + a[1..];
    }
  }
}
