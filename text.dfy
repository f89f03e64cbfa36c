/** The string operations of Python and pandas that the pipeline uses:
    `str.strip()`, `str.strip('_')`, `str.lower()`, `str.upper()` and the
    substring test of `in` / `str.contains`. Casing is modelled on ASCII
    letters only. */
module Text {

  /** The characters for which Python's `str.isspace()` holds, which is what
      `str.strip()` without an argument removes from both ends. */
  predicate IsSpace(c: char) {
    || c == ' ' || c == '\t' || c == '\n' || c == '\r'
    || c == '\U{B}' || c == '\U{C}'
    || ('\U{1C}' <= c <= '\U{1F}')
    || c == '\U{85}' || c == '\U{A0}' || c == '\U{1680}'
    || ('\U{2000}' <= c <= '\U{200A}')
    || c == '\U{2028}' || c == '\U{2029}' || c == '\U{202F}' || c == '\U{205F}' || c == '\U{3000}'
  }

  predicate IsUnderscore(c: char) { c == '_' }

  /** Removes the leading characters that satisfy `drop`. */
  function DropLeading(s: string, drop: char -> bool): (r: string)
    ensures |r| <= |s| && r == s[|s| - |r|..]
    ensures r != [] ==> !drop(r[0])
    ensures forall i :: 0 <= i < |s| - |r| ==> drop(s[i])
  {
    if s != [] && drop(s[0]) then
      var r := DropLeading(s[1..], drop);
      assert s[1..][|s| - 1 - |r|..] == s[|s| - |r|..];
      assert forall i :: 1 <= i < |s| - |r| ==> s[i] == s[1..][i - 1];
      r
    else s
  }

  /** Removes the trailing characters that satisfy `drop`. */
  function DropTrailing(s: string, drop: char -> bool): (r: string)
    ensures |r| <= |s| && r == s[..|r|]
    ensures r != [] ==> !drop(r[|r| - 1])
    ensures forall i :: |r| <= i < |s| ==> drop(s[i])
  {
    if s != [] && drop(s[|s| - 1]) then
      var r := DropTrailing(s[..|s| - 1], drop);
      assert s[..|s| - 1][..|r|] == s[..|r|];
      assert forall i :: |r| <= i < |s| - 1 ==> s[i] == s[..|s| - 1][i];
      r
    else s
  }

  /** Python's `s.strip(chars)`: the longest infix of `s` that neither starts
      nor ends with a character satisfying `drop`. */
  function StripWith(s: string, drop: char -> bool): (r: string)
  {
    DropTrailing(DropLeading(s, drop), drop)
  }

  /** Python's `s.strip()`. */
  function Strip(s: string): string
  {
    StripWith(s, IsSpace)
  }

  /** `StripWith` cuts a (possibly empty) run from each end and nothing else. */
  lemma StripWithInfix(s: string, drop: char -> bool)
    ensures exists i, j :: (0 <= i <= j <= |s| && StripWith(s, drop) == s[i..j]
                            && (forall k :: 0 <= k < i ==> drop(s[k]))
                            && (forall k :: j <= k < |s| ==> drop(s[k])))
  {
    var a := DropLeading(s, drop);
    var b := DropTrailing(a, drop);
    var i := |s| - |a|;
    var j := i + |b|;
    assert a == s[i..];
    assert b == a[..|b|];
    assert b == s[i..j];
    forall k | j <= k < |s| ensures drop(s[k]) {
      assert s[k] == a[k - i];
    }
    assert StripWith(s, drop) == s[i..j];
  }

  /** A stripped string neither starts nor ends with a dropped character. */
  lemma StripWithEnds(s: string, drop: char -> bool)
    ensures var r := StripWith(s, drop); r != [] ==> !drop(r[0]) && !drop(r[|r| - 1])
  {
    var a := DropLeading(s, drop);
    var r := DropTrailing(a, drop);
    if r != [] {
      assert r[0] == a[0];
    }
  }

  /** A string with nothing to strip at either end is its own strip. */
  lemma StripWithUnchanged(s: string, drop: char -> bool)
    requires s != [] ==> !drop(s[0]) && !drop(s[|s| - 1])
    ensures StripWith(s, drop) == s
  {
  }

  /** Stripping twice strips no more than once. */
  lemma StripIdempotent(s: string)
    ensures Strip(Strip(s)) == Strip(s)
  {
    var a := DropLeading(s, IsSpace);
    var r := DropTrailing(a, IsSpace);
    if r != [] {
      assert r[0] == a[0];
    }
    StripWithUnchanged(r, IsSpace);
  }

  function LowerChar(c: char): char
  {
    if 'A' <= c <= 'Z' then (c as int + 32) as char else c
  }

  function UpperChar(c: char): char
  {
    if 'a' <= c <= 'z' then (c as int - 32) as char else c
  }

  /** Python's `s.lower()` on ASCII letters. */
  function Lower(s: string): string
  {
    seq(|s|, i requires 0 <= i < |s| => LowerChar(s[i]))
  }

  /** Python's `s.upper()` on ASCII letters. */
  function Upper(s: string): string
  {
    seq(|s|, i requires 0 <= i < |s| => UpperChar(s[i]))
  }

  /** No upper-case ASCII letter occurs in `s`. */
  predicate IsLowerCase(s: string) {
    forall i :: 0 <= i < |s| ==> !('A' <= s[i] <= 'Z')
  }

  /** No lower-case ASCII letter occurs in `s`. */
  predicate IsUpperCase(s: string) {
    forall i :: 0 <= i < |s| ==> !('a' <= s[i] <= 'z')
  }

  /** Lower-casing yields lower case, changes nothing already lower case,
      and forgets the case the input had. */
  lemma LowerSpec(s: string)
    ensures |Lower(s)| == |s| && IsLowerCase(Lower(s))
    ensures IsLowerCase(s) <==> Lower(s) == s
    ensures Lower(Upper(s)) == Lower(s)
  {
    if IsLowerCase(s) {
      assert forall i :: 0 <= i < |s| ==> Lower(s)[i] == s[i];
    }
    if Lower(s) == s {
      forall i | 0 <= i < |s| ensures !('A' <= s[i] <= 'Z') {
        assert LowerChar(s[i]) == s[i];
      }
    }
    assert forall i :: 0 <= i < |s| ==> Lower(Upper(s))[i] == Lower(s)[i];
  }

  /** Upper-casing yields upper case, changes nothing already upper case,
      and forgets the case the input had. */
  lemma UpperSpec(s: string)
    ensures |Upper(s)| == |s| && IsUpperCase(Upper(s))
    ensures IsUpperCase(s) <==> Upper(s) == s
    ensures Upper(Lower(s)) == Upper(s)
  {
    if IsUpperCase(s) {
      assert forall i :: 0 <= i < |s| ==> Upper(s)[i] == s[i];
    }
    if Upper(s) == s {
      forall i | 0 <= i < |s| ensures !('a' <= s[i] <= 'z') {
        assert UpperChar(s[i]) == s[i];
      }
    }
    assert forall i :: 0 <= i < |s| ==> Upper(Lower(s))[i] == Upper(s)[i];
  }

  predicate OccursAt(s: string, pat: string, i: nat) {
    i + |pat| <= |s| && s[i..i + |pat|] == pat
  }

  /** Python's `pat in s`: `pat` occurs as a contiguous part of `s`. */
  predicate Contains(s: string, pat: string) {
    exists i: nat :: i <= |s| && OccursAt(s, pat, i)
  }
}
