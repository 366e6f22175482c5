/**
 * The string operations the pages rely on: Python's `str.strip()`,
 * `str.lower()`/`str.upper()` (ASCII letters only), `in` on strings and
 * `str.startswith`.
 */
module Text {
  /** The characters for which Python's `str.isspace()` holds; `\s` in a `re`
      pattern and `str.strip()` without arguments use the same set. */
  predicate IsSpace(c: char) {
    c == ' ' || ('\t' <= c <= '\r') || ('\U{1C}' <= c <= '\U{1F}') || c == '\U{85}' || c == '\U{A0}'
    || c == '\U{1680}' || ('\U{2000}' <= c <= '\U{200A}') || c == '\U{2028}' || c == '\U{2029}'
    || c == '\U{202F}' || c == '\U{205F}' || c == '\U{3000}'
  }

  predicate IsUpper(c: char) { 'A' <= c <= 'Z' }
  predicate IsLowerLetter(c: char) { 'a' <= c <= 'z' }

  function LowerChar(c: char): char { if IsUpper(c) then (c as int + 32) as char else c }
  function UpperChar(c: char): char { if IsLowerLetter(c) then (c as int - 32) as char else c }

  /** `s.lower()`: every ASCII capital becomes its small letter, nothing else moves. */
  function Lower(s: string): (r: string)
    ensures |r| == |s|
    ensures forall i :: 0 <= i < |r| ==> !IsUpper(r[i])
    ensures forall i :: 0 <= i < |r| ==> (if IsUpper(s[i]) then r[i] as int == s[i] as int + 32 else r[i] == s[i])
  {
    seq(|s|, i requires 0 <= i < |s| => LowerChar(s[i]))
  }

  /** `s.upper()`: every ASCII small letter becomes its capital, nothing else moves. */
  function Upper(s: string): (r: string)
    ensures |r| == |s|
    ensures forall i :: 0 <= i < |r| ==> !IsLowerLetter(r[i])
    ensures forall i :: 0 <= i < |r| ==> (if IsLowerLetter(s[i]) then r[i] as int == s[i] as int - 32 else r[i] == s[i])
  {
    seq(|s|, i requires 0 <= i < |s| => UpperChar(s[i]))
  }

  /** Leading whitespace removed: the result is a suffix of `s` that does not start with a space. */
  function TrimStart(s: string): (r: string)
    ensures |r| <= |s| && r == s[|s| - |r|..]
    ensures r == [] || !IsSpace(r[0])
    ensures forall i :: 0 <= i < |s| - |r| ==> IsSpace(s[i])
  {
    if s != [] && IsSpace(s[0]) then TrimStart(s[1..]) else s
  }

  /** Trailing whitespace removed: the result is a prefix of `s` that does not end with a space. */
  function TrimEnd(s: string): (r: string)
    ensures |r| <= |s| && r == s[..|r|]
    ensures r == [] || !IsSpace(r[|r| - 1])
    ensures forall i :: |r| <= i < |s| ==> IsSpace(s[i])
  {
    if s != [] && IsSpace(s[|s| - 1]) then TrimEnd(s[..|s| - 1]) else s
  }

  /** `s.strip()`. */
  function Strip(s: string): (r: string)
    ensures |r| <= |s|
    ensures r == [] || (!IsSpace(r[0]) && !IsSpace(r[|r| - 1]))
  {
    TrimEnd(TrimStart(s))
  }

  /** `s.startswith(p)`. */
  predicate StartsWith(s: string, p: string) {
    |p| <= |s| && s[..|p|] == p
  }

  /** `k in s` for strings: `k` occurs somewhere in `s`. */
  predicate Contains(s: string, k: string)
    decreases |s|
  {
    StartsWith(s, k) || (s != [] && Contains(s[1..], k))
  }

  /** `k` occurs in `s` at position `i`, so `k in s` holds. */
  lemma {:induction false} ContainsAt(s: string, k: string, i: nat)
    requires i + |k| <= |s| && s[i..i + |k|] == k
    ensures Contains(s, k)
    decreases i
  {
    if i > 0 {
      assert s[1..][i - 1..i - 1 + |k|] == k;
      ContainsAt(s[1..], k, i - 1);
    }
  }

  /** Every character of an occurring `k` is a character of `s`: a character missing from `s`
      rules out every `k` that holds it. */
  lemma {:induction false} ContainsOnlyChars(s: string, k: string, c: char)
    requires Contains(s, k) && c in k
    ensures c in s
    decreases |s|
  {
    if StartsWith(s, k) {
      var j :| 0 <= j < |k| && k[j] == c;
      assert s[j] == c;
    } else {
      ContainsOnlyChars(s[1..], k, c);
    }
  }

  /** If `u + v` occurs in `s`, so does `u`. */
  lemma {:induction false} ContainsPrefixOf(s: string, u: string, v: string)
    requires Contains(s, u + v)
    ensures Contains(s, u)
    decreases |s|
  {
    if StartsWith(s, u + v) {
      assert s[..|u|] == (u + v)[..|u|] == u;
    } else {
      ContainsPrefixOf(s[1..], u, v);
    }
  }

  /** If `u + v` occurs in `s`, so does `v`. */
  lemma {:induction false} ContainsSuffixOf(s: string, u: string, v: string)
    requires Contains(s, u + v)
    ensures Contains(s, v)
    decreases |s|
  {
    if StartsWith(s, u + v) {
      assert s[|u|..|u| + |v|] == (u + v)[|u|..] == v;
      ContainsAt(s, v, |u|);
    } else {
      ContainsSuffixOf(s[1..], u, v);
    }
  }

  /** Only a string no longer than `s` can occur in `s`. */
  lemma {:induction false} ContainsNoLonger(s: string, k: string)
    requires Contains(s, k)
    ensures |k| <= |s|
    decreases |s|
  {
    if !StartsWith(s, k) {
      ContainsNoLonger(s[1..], k);
    }
  }

  /** Nothing but the empty string occurs in the empty string. */
  lemma EmptyContainsOnlyEmpty(k: string)
    ensures Contains("", k) <==> k == ""
  {
  }

  /** `strip()` applied twice is `strip()` applied once. */
  lemma StripIdempotent(s: string)
    ensures Strip(Strip(s)) == Strip(s)
  {
    var t := TrimStart(s);
    var r := TrimEnd(t);
    assert r != [] ==> r[0] == t[0];
    assert TrimStart(r) == r;
    assert TrimEnd(r) == r;
  }

  /** A string without surrounding whitespace is its own strip. */
  lemma StripUnpadded(s: string)
    requires s == [] || (!IsSpace(s[0]) && !IsSpace(s[|s| - 1]))
    ensures Strip(s) == s
  {
    assert TrimStart(s) == s;
  }

  /** A string without capitals is its own lower-case form. */
  lemma LowerNoCapitals(s: string)
    requires forall i :: 0 <= i < |s| ==> !IsUpper(s[i])
    ensures Lower(s) == s
  {
  }

  /** `lower()` applied twice is `lower()` applied once. */
  lemma LowerIdempotent(s: string)
    ensures Lower(Lower(s)) == Lower(s)
  {
  }
}
