/** Header canonicalisation of the cleaning script: `to_snake_case`. */
module SnakeCase {
  import opened Text

  predicate IsAsciiAlnum(c: char) {
    'a' <= c <= 'z' || 'A' <= c <= 'Z' || '0' <= c <= '9'
  }

  /** The letters and digits of `s`, in order. */
  function Alnums(s: string): string
  {
    if s == [] then []
    else (if IsAsciiAlnum(s[0]) then [s[0]] else []) + Alnums(s[1..])
  }

  /** Every character is an ASCII letter, digit or underscore. */
  predicate IsWordText(s: string) {
    forall i :: 0 <= i < |s| ==> IsAsciiAlnum(s[i]) || s[i] == '_'
  }

  predicate NoDoubleUnderscore(s: string) {
    forall i :: 0 <= i < |s| - 1 ==> !(s[i] == '_' && s[i + 1] == '_')
  }

  /** `re.sub(r'[^0-9a-zA-Z]+', '_', s)`: every maximal run of characters other
      than ASCII letters and digits becomes one underscore. `inRun` says that
      the character before `s` was already part of such a run. */
  function ReplaceNonAlnumRuns(s: string, inRun: bool): (r: string)
    ensures IsWordText(r) && NoDoubleUnderscore(r)
    ensures inRun && r != [] ==> r[0] != '_'
    ensures Alnums(r) == Alnums(s)
  {
    if s == [] then []
    else if IsAsciiAlnum(s[0]) then [s[0]] + ReplaceNonAlnumRuns(s[1..], false)
    else if inRun then ReplaceNonAlnumRuns(s[1..], true)
    else "_" + ReplaceNonAlnumRuns(s[1..], true)
  }

  /** `re.sub(r'_+', '_', s)`: every run of underscores becomes one. */
  function SqueezeUnderscores(s: string, inRun: bool): string
  {
    if s == [] then []
    else if s[0] != '_' then [s[0]] + SqueezeUnderscores(s[1..], false)
    else if inRun then SqueezeUnderscores(s[1..], true)
    else "_" + SqueezeUnderscores(s[1..], true)
  }

  /** `to_snake_case` (02_clean_data.py): strip, replace runs of non-alphanumerics
      by `_`, squeeze repeated `_`, lower-case, strip `_` from both ends. */
  function ToSnakeCase(s: string): string
  {
    StripWith(Lower(SqueezeUnderscores(ReplaceNonAlnumRuns(Strip(s), false), false)), IsUnderscore)
  }

  predicate IsSnakeChar(c: char) {
    'a' <= c <= 'z' || '0' <= c <= '9' || c == '_'
  }

  /** A canonical column name: lower-case letters, digits and single
      underscores, with no underscore at either end. */
  predicate IsSnakeCase(s: string) {
    && (forall i :: 0 <= i < |s| ==> IsSnakeChar(s[i]))
    && NoDoubleUnderscore(s)
    && (s != [] ==> s[0] != '_' && s[|s| - 1] != '_')
  }

  /** Squeezing a text that has no repeated underscore changes nothing. */
  lemma {:induction false} SqueezeUnchanged(s: string, inRun: bool)
    requires NoDoubleUnderscore(s)
    requires inRun && s != [] ==> s[0] != '_'
    ensures SqueezeUnderscores(s, inRun) == s
  {
    if s != [] {
      assert NoDoubleUnderscore(s[1..]) by {
        forall i | 0 <= i < |s[1..]| - 1 ensures !(s[1..][i] == '_' && s[1..][i + 1] == '_') {
          assert s[1..][i] == s[i + 1] && s[1..][i + 1] == s[i + 2];
        }
      }
      if s[0] != '_' {
        SqueezeUnchanged(s[1..], false);
      } else {
        SqueezeUnchanged(s[1..], true);
      }
    }
  }

  /** Replacing non-alphanumeric runs in a word text without repeated
      underscores changes nothing. */
  lemma {:induction false} ReplaceUnchanged(s: string, inRun: bool)
    requires IsWordText(s) && NoDoubleUnderscore(s)
    requires inRun && s != [] ==> s[0] != '_'
    ensures ReplaceNonAlnumRuns(s, inRun) == s
  {
    if s != [] {
      assert NoDoubleUnderscore(s[1..]) by {
        forall i | 0 <= i < |s[1..]| - 1 ensures !(s[1..][i] == '_' && s[1..][i + 1] == '_') {
          assert s[1..][i] == s[i + 1] && s[1..][i + 1] == s[i + 2];
        }
      }
      assert IsWordText(s[1..]) by {
        forall i | 0 <= i < |s[1..]| ensures IsAsciiAlnum(s[1..][i]) || s[1..][i] == '_' {
          assert s[1..][i] == s[i + 1];
        }
      }
      if IsAsciiAlnum(s[0]) {
        ReplaceUnchanged(s[1..], false);
      } else {
        ReplaceUnchanged(s[1..], true);
      }
    }
  }

  /** Lower-casing a word text gives snake characters and keeps underscores where they were. */
  lemma LowerWordText(b: string)
    requires IsWordText(b) && NoDoubleUnderscore(b)
    ensures (forall i :: 0 <= i < |b| ==> IsSnakeChar(Lower(b)[i])) && NoDoubleUnderscore(Lower(b))
  {
    var d := Lower(b);
    forall i | 0 <= i < |d| - 1 ensures !(d[i] == '_' && d[i + 1] == '_') {
      assert d[i] == LowerChar(b[i]) && d[i + 1] == LowerChar(b[i + 1]);
    }
  }

  /** Stripping underscores from a text of snake characters without repeated
      underscores gives a canonical name. */
  lemma StripUnderscoresCanonical(d: string)
    requires (forall i :: 0 <= i < |d| ==> IsSnakeChar(d[i])) && NoDoubleUnderscore(d)
    ensures IsSnakeCase(StripWith(d, IsUnderscore))
  {
    var r := StripWith(d, IsUnderscore);
    StripWithInfix(d, IsUnderscore);
    var i, j :| 0 <= i <= j <= |d| && r == d[i..j];
    InfixKeepsShape(d, i, j);
    StripWithEnds(d, IsUnderscore);
  }

  /** Any infix of a text of snake characters without repeated underscores
      keeps both properties. */
  lemma InfixKeepsShape(d: string, i: nat, j: nat)
    requires i <= j <= |d|
    requires (forall k :: 0 <= k < |d| ==> IsSnakeChar(d[k])) && NoDoubleUnderscore(d)
    ensures (forall k :: 0 <= k < j - i ==> IsSnakeChar(d[i..j][k])) && NoDoubleUnderscore(d[i..j])
  {
    var r := d[i..j];
    forall k | 0 <= k < |r| ensures IsSnakeChar(r[k]) {
      assert r[k] == d[i + k];
    }
    forall k | 0 <= k < |r| - 1 ensures !(r[k] == '_' && r[k + 1] == '_') {
      assert r[k] == d[i + k] && r[k + 1] == d[i + k + 1];
    }
  }

  /** The result of `to_snake_case` is always a canonical name. */
  lemma ToSnakeCaseIsCanonical(s: string)
    ensures IsSnakeCase(ToSnakeCase(s))
  {
    var b := ReplaceNonAlnumRuns(Strip(s), false);
    SqueezeUnchanged(b, false);
    LowerWordText(b);
    StripUnderscoresCanonical(Lower(b));
  }

  /** A canonical name is its own snake case. */
  lemma CanonicalUnchanged(s: string)
    requires IsSnakeCase(s)
    ensures ToSnakeCase(s) == s
  {
    assert Strip(s) == s by {
      StripWithUnchanged(s, IsSpace);
    }
    assert ReplaceNonAlnumRuns(s, false) == s by {
      assert IsWordText(s);
      ReplaceUnchanged(s, false);
    }
    assert SqueezeUnderscores(s, false) == s by {
      SqueezeUnchanged(s, false);
    }
    assert Lower(s) == s by {
      assert IsLowerCase(s);
      LowerSpec(s);
    }
    assert StripWith(s, IsUnderscore) == s by {
      StripWithUnchanged(s, IsUnderscore);
    }
  }

  /** `to_snake_case` is idempotent. */
  lemma ToSnakeCaseIdempotent(s: string)
    ensures ToSnakeCase(ToSnakeCase(s)) == ToSnakeCase(s)
  {
    ToSnakeCaseIsCanonical(s);
    CanonicalUnchanged(ToSnakeCase(s));
  }
}
