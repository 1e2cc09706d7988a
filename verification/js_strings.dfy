/**
 The three JavaScript string primitives the video filter relies on:
 `String.prototype.trim`, `String.prototype.toLowerCase` and
 `String.prototype.includes`, over Dafny strings (sequences of Unicode
 scalar values).

 `trim` strips exactly the code points of the WhiteSpace and LineTerminator
 productions of ECMA-262. `toLowerCase` is modelled as ASCII case folding
 only; the full Unicode case mapping is not part of this model.
 */
module JsStrings {

  /** A code point of the ECMA-262 WhiteSpace or LineTerminator productions
      (TAB, LF, VT, FF, CR, SPACE, NBSP, ZWNBSP, the Zs category, LS, PS). */
  predicate IsWhitespace(c: char) {
    var n := c as int;
    || (0x09 <= n <= 0x0D)
    || n == 0x20
    || n == 0xA0
    || n == 0x1680
    || (0x2000 <= n <= 0x200A)
    || n == 0x2028
    || n == 0x2029
    || n == 0x202F
    || n == 0x205F
    || n == 0x3000
    || n == 0xFEFF
  }

  predicate AllWhitespace(s: string) {
    forall i :: 0 <= i < |s| ==> IsWhitespace(s[i])
  }

  /** Whitespace followed by whitespace is whitespace. */
  lemma WhitespaceCons(c: char, t: string)
    requires IsWhitespace(c) && AllWhitespace(t)
    ensures AllWhitespace([c] + t)
  {
    var u := [c] + t;
    forall i | 0 <= i < |u|
      ensures IsWhitespace(u[i])
    {
      if i > 0 {
        assert u[i] == t[i - 1];
      }
    }
  }

  /** Whitespace followed by a whitespace character is whitespace. */
  lemma WhitespaceSnoc(t: string, c: char)
    requires AllWhitespace(t) && IsWhitespace(c)
    ensures AllWhitespace(t + [c])
  {
    var u := t + [c];
    forall i | 0 <= i < |u|
      ensures IsWhitespace(u[i])
    {
      if i < |t| {
        assert u[i] == t[i];
      }
    }
  }

  /** Leading whitespace removed: the result is a suffix of `s`, everything
      cut off is whitespace, and the result does not start with whitespace. */
  function TrimStart(s: string): (r: string)
    ensures |r| <= |s| && r == s[|s| - |r|..]
    ensures AllWhitespace(s[..|s| - |r|])
    ensures r == [] || !IsWhitespace(r[0])
  {
    if s == [] || !IsWhitespace(s[0]) then s
    else
      var r := TrimStart(s[1..]);
      assert s[..|s| - |r|] == [s[0]] + s[1..][..|s[1..]| - |r|];
      WhitespaceCons(s[0], s[1..][..|s[1..]| - |r|]);
      r
  }

  /** Trailing whitespace removed: the result is a prefix of `s`, everything
      cut off is whitespace, and the result does not end with whitespace. */
  function TrimEnd(s: string): (r: string)
    ensures |r| <= |s| && r == s[..|r|]
    ensures AllWhitespace(s[|r|..])
    ensures r == [] || !IsWhitespace(r[|r| - 1])
  {
    if s == [] || !IsWhitespace(s[|s| - 1]) then s
    else
      var r := TrimEnd(s[..|s| - 1]);
      assert s[|r|..] == s[..|s| - 1][|r|..] + [s[|s| - 1]];
      WhitespaceSnoc(s[..|s| - 1][|r|..], s[|s| - 1]);
      r
  }

  /** `String.prototype.trim`: leading, then trailing whitespace removed. */
  function Trim(s: string): (r: string)
    ensures |r| <= |s|
    ensures r == [] || (!IsWhitespace(r[0]) && !IsWhitespace(r[|r| - 1]))
  {
    TrimEnd(TrimStart(s))
  }

  /** The trimmed string is an infix of `s` with only whitespace around it. */
  lemma TrimIsInfix(s: string)
    ensures var r := Trim(s);
            exists i :: 0 <= i <= |s| - |r| && r == s[i..i + |r|]
                        && AllWhitespace(s[..i]) && AllWhitespace(s[i + |r|..])
  {
    var t := TrimStart(s);
    InfixWitness(s, t, Trim(s));
  }

  /** A prefix `r` of a suffix `t` of `s`, where the parts of `s` before `t`
      and of `t` after `r` are whitespace, is an infix of `s` with only
      whitespace around it. */
  lemma InfixWitness(s: string, t: string, r: string)
    requires |t| <= |s| && t == s[|s| - |t|..] && AllWhitespace(s[..|s| - |t|])
    requires |r| <= |t| && r == t[..|r|] && AllWhitespace(t[|r|..])
    ensures exists i :: 0 <= i <= |s| - |r| && r == s[i..i + |r|]
                        && AllWhitespace(s[..i]) && AllWhitespace(s[i + |r|..])
  {
    var i := |s| - |t|;
    assert s[i + |r|..] == t[|r|..];
    assert r == s[i..i + |r|];
  }

  /** Leading-whitespace removal empties a string exactly when it is all whitespace. */
  lemma TrimStartEmptyIff(s: string)
    ensures TrimStart(s) == [] <==> AllWhitespace(s)
  {
    var r := TrimStart(s);
    if r == [] {
      assert s[..|s|] == s;
    }
  }

  /** Trailing-whitespace removal empties a string exactly when it is all whitespace. */
  lemma TrimEndEmptyIff(s: string)
    ensures TrimEnd(s) == [] <==> AllWhitespace(s)
  {
    var r := TrimEnd(s);
    if r == [] {
      assert s[0..] == s;
    }
  }

  /** JavaScript truthiness of `s.trim()` negated: the trimmed string is
      empty. The empty string is blank, and a non-empty blank string starts
      and ends with whitespace. */
  function IsBlank(s: string): (b: bool)
    ensures s == [] ==> b
    ensures b && s != [] ==> IsWhitespace(s[0]) && IsWhitespace(s[|s| - 1])
  {
    Trim(s) == []
  }

  /** A string is blank exactly when every character of it is whitespace. */
  lemma BlankIffAllWhitespace(s: string)
    ensures IsBlank(s) <==> AllWhitespace(s)
  {
    var t := TrimStart(s);
    TrimStartEmptyIff(s);
    TrimEndEmptyIff(t);
    if t != [] {
      assert !AllWhitespace(t) by {
        assert !IsWhitespace(t[0]);
      }
    }
  }

  /** ASCII case folding of one character (the part of `toLowerCase` modelled). */
  function LowerChar(c: char): (r: char)
    ensures !('A' <= r <= 'Z')
    ensures !('A' <= c <= 'Z') ==> r == c
    ensures 'A' <= c <= 'Z' ==> 'a' <= r <= 'z' && r as int - c as int == 32
  {
    if 'A' <= c <= 'Z' then (c as int + 32) as char else c
  }

  /** `String.prototype.toLowerCase`, character by character. */
  function Lower(s: string): (r: string)
    ensures |r| == |s|
    ensures forall i :: 0 <= i < |s| ==> r[i] == LowerChar(s[i])
  {
    seq(|s|, i requires 0 <= i < |s| => LowerChar(s[i]))
  }

  /** Folding twice is folding once. */
  lemma LowerIdempotent(s: string)
    ensures Lower(Lower(s)) == Lower(s)
  {
  }

  /** A string whose only characters are lower-case letters, digits or
      punctuation is its own lower-case form. */
  lemma LowerFixesUncased(s: string)
    requires forall i :: 0 <= i < |s| ==> !('A' <= s[i] <= 'Z')
    ensures Lower(s) == s
  {
  }

  /** `t` occurs in `s` at offset `i`. */
  predicate OccursAt(s: string, t: string, i: int) {
    0 <= i && i + |t| <= |s| && s[i..i + |t|] == t
  }

  /** `String.prototype.includes`: does `t` occur in `s` at some offset?
      Computed by scanning offsets from the left. */
  function Includes(s: string, t: string): (b: bool)
    ensures t == [] ==> b
    ensures b ==> |t| <= |s|
    decreases |s|
  {
    (|t| <= |s| && s[..|t|] == t) || (|s| > 0 && Includes(s[1..], t))
  }

  /** An occurrence found by `Includes` is an occurrence by offset. */
  lemma {:induction false} IncludesHasOccurrence(s: string, t: string) returns (i: int)
    requires Includes(s, t)
    ensures OccursAt(s, t, i)
    decreases |s|
  {
    if |t| <= |s| && s[..|t|] == t {
      i := 0;
    } else {
      var j := IncludesHasOccurrence(s[1..], t);
      assert s[1..][j..j + |t|] == s[j + 1..j + 1 + |t|];
      i := j + 1;
    }
  }

  /** Every occurrence by offset is found by `Includes`. */
  lemma {:induction false} OccurrenceIsIncluded(s: string, t: string, i: int)
    requires OccursAt(s, t, i)
    ensures Includes(s, t)
    decreases i
  {
    if i == 0 {
      assert s[..|t|] == t;
    } else {
      assert s[1..][i - 1..i - 1 + |t|] == s[i..i + |t|];
      OccurrenceIsIncluded(s[1..], t, i - 1);
    }
  }

  /** `Includes` agrees with the reference definition by offsets, in both
      directions. */
  lemma IncludesIffOccurs(s: string, t: string)
    ensures Includes(s, t) <==> exists i :: OccursAt(s, t, i)
  {
    if Includes(s, t) {
      var i := IncludesHasOccurrence(s, t);
    }
    forall i | OccursAt(s, t, i)
      ensures Includes(s, t)
    {
      OccurrenceIsIncluded(s, t, i);
    }
  }

  /** The empty string is included in every string. */
  lemma IncludesEmpty(s: string)
    ensures Includes(s, [])
  {
  }

  /** Every character of an included string occurs in the including string. */
  lemma IncludesCharsOccur(s: string, t: string, k: int)
    requires Includes(s, t)
    requires 0 <= k < |t|
    ensures t[k] in s
  {
    var i := IncludesHasOccurrence(s, t);
    assert s[i + k] == t[k];
  }

  /** A string lacking one character of `t` does not include `t`. */
  lemma AbsentCharNotIncluded(s: string, t: string, k: int)
    requires 0 <= k < |t|
    requires forall i :: 0 <= i < |s| ==> s[i] != t[k]
    ensures !Includes(s, t)
  {
    if Includes(s, t) {
      IncludesCharsOccur(s, t, k);
    }
  }

  /** A string lacking one two-character window of `t` does not include `t`. */
  lemma AbsentPairNotIncluded(s: string, t: string, k: int)
    requires 0 <= k && k + 1 < |t|
    requires forall i :: 0 <= i < |s| - 1 ==> !(s[i] == t[k] && s[i + 1] == t[k + 1])
    ensures !Includes(s, t)
  {
    if Includes(s, t) {
      var i := IncludesHasOccurrence(s, t);
    }
  }
}
