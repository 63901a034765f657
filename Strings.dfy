/** The JavaScript string operations the script relies on: `trim`,
    `toLowerCase`/`toUpperCase`, `includes`, and the decimal text of a
    number inside a template literal. */
module Strings {

  /** The characters `String.prototype.trim` strips: ECMAScript's
      WhiteSpace and LineTerminator code points. */
  predicate IsWhitespace(c: char) {
    || c == '\t' || c == '\n' || c == '\U{B}' || c == '\U{C}' || c == '\r' || c == ' '
    || c == '\U{A0}' || c == '\U{1680}' || ('\U{2000}' <= c <= '\U{200A}')
    || c == '\U{2028}' || c == '\U{2029}' || c == '\U{202F}' || c == '\U{205F}'
    || c == '\U{3000}' || c == '\U{FEFF}'
  }

  /** Removes leading whitespace. */
  function TrimStart(s: string): (r: string)
    ensures |r| <= |s| && r == s[|s| - |r|..]
    ensures forall k :: 0 <= k < |s| - |r| ==> IsWhitespace(s[k])
    ensures r != [] ==> !IsWhitespace(r[0])
  {
    if s != [] && IsWhitespace(s[0]) then TrimStart(s[1..]) else s
  }

  /** Removes trailing whitespace. */
  function TrimEnd(s: string): (r: string)
    ensures |r| <= |s| && r == s[..|r|]
    ensures forall k :: |r| <= k < |s| ==> IsWhitespace(s[k])
    ensures r != [] ==> !IsWhitespace(r[|r| - 1])
  {
    if s != [] && IsWhitespace(s[|s| - 1]) then TrimEnd(s[..|s| - 1]) else s
  }

  /** `s.trim()`: the slice of `s` between its leading and its trailing whitespace. */
  function Trim(s: string): (r: string)
    ensures var k := |s| - |TrimStart(s)|;
      && k + |r| <= |s| && r == s[k..k + |r|]
      && (forall j :: 0 <= j < k ==> IsWhitespace(s[j]))
      && (forall j :: k + |r| <= j < |s| ==> IsWhitespace(s[j]))
    ensures r != [] ==> !IsWhitespace(r[0]) && !IsWhitespace(r[|r| - 1])
  {
    TrimEnd(TrimStart(s))
  }

  /** Trimming a trimmed string changes nothing. */
  lemma TrimIdempotent(s: string)
    ensures Trim(Trim(s)) == Trim(s)
  {
    var t := Trim(s);
    if t != [] {
      assert TrimStart(t) == t;
      assert TrimEnd(t) == t;
    }
  }

  function ToLowerChar(c: char): char {
    if 'A' <= c <= 'Z' then (c as int + 32) as char else c
  }

  function ToUpperChar(c: char): char {
    if 'a' <= c <= 'z' then (c as int - 32) as char else c
  }

  /** `s.toLowerCase()`, for the Latin capital letters A to Z. */
  function ToLower(s: string): (r: string)
    ensures |r| == |s|
    ensures forall k :: 0 <= k < |r| ==> !('A' <= r[k] <= 'Z')
    ensures forall k :: 0 <= k < |s| && !('A' <= s[k] <= 'Z') ==> r[k] == s[k]
    ensures forall k :: 0 <= k < |s| && 'A' <= s[k] <= 'Z' ==> 'a' <= r[k] <= 'z' && ToUpperChar(r[k]) == s[k]
  {
    seq(|s|, k requires 0 <= k < |s| => ToLowerChar(s[k]))
  }

  /** Lower-casing twice is lower-casing once, so a normalised query
      compared with lower-cased text is unaffected by a second `toLowerCase`. */
  lemma ToLowerIdempotent(s: string)
    ensures ToLower(ToLower(s)) == ToLower(s)
  {
    var once := ToLower(s);
    forall k | 0 <= k < |once| ensures ToLower(once)[k] == once[k] {
      assert !('A' <= once[k] <= 'Z');
    }
  }

  /** `t.startsWith(p)`. */
  predicate StartsWith(t: string, p: string) {
    |p| <= |t| && t[..|p|] == p
  }

  /** `q` occurs in `t` starting at position `i`. */
  ghost predicate OccursAt(t: string, q: string, i: int) {
    0 <= i && i + |q| <= |t| && t[i..i + |q|] == q
  }

  /** `t.includes(q)`: `q` is a prefix of `t` or of some suffix of it. */
  predicate Contains(t: string, q: string)
    decreases |t|
  {
    StartsWith(t, q) || (t != [] && Contains(t[1..], q))
  }

  /** `Contains` holds exactly when `q` occurs at some position of `t`. */
  lemma {:induction false} ContainsIffOccurs(t: string, q: string)
    ensures Contains(t, q) <==> exists i :: OccursAt(t, q, i)
    decreases |t|
  {
    if t != [] {
      ContainsIffOccurs(t[1..], q);
      if Contains(t[1..], q) {
        var i :| OccursAt(t[1..], q, i);
        assert t[i + 1..i + 1 + |q|] == t[1..][i..i + |q|];
        assert OccursAt(t, q, i + 1);
      }
      if i :| OccursAt(t, q, i) {
        if i > 0 {
          assert t[1..][i - 1..i - 1 + |q|] == t[i..i + |q|];
          assert OccursAt(t[1..], q, i - 1);
        } else {
          assert StartsWith(t, q);
        }
      }
    }
    if StartsWith(t, q) {
      assert OccursAt(t, q, 0);
    }
    if t == [] {
      if i :| OccursAt(t, q, i) {
        assert StartsWith(t, q);
      }
    }
  }

  /** Every string includes the empty string. */
  lemma ContainsEmpty(t: string)
    ensures Contains(t, "")
  {
    assert StartsWith(t, "");
  }

  function Digit(d: nat): char
    requires d < 10
  {
    ('0' as int + d) as char
  }

  /** The decimal text of `n`, as a template literal prints it. */
  function NatToString(n: nat): (r: string)
    ensures |r| >= 1
    ensures forall k :: 0 <= k < |r| ==> '0' <= r[k] <= '9'
    ensures |r| > 1 ==> r[0] != '0'
  {
    if n < 10 then [Digit(n)] else NatToString(n / 10) + [Digit(n % 10)]
  }

  /** The number a string of decimal digits stands for. */
  function DigitsValue(s: string): int
  {
    if s == [] then 0 else 10 * DigitsValue(s[..|s| - 1]) + (s[|s| - 1] as int - '0' as int)
  }

  /** Reading back the decimal text of `n` gives `n`. */
  lemma {:induction false} NatToStringRoundTrip(n: nat)
    ensures DigitsValue(NatToString(n)) == n
  {
    if n >= 10 {
      NatToStringRoundTrip(n / 10);
      var s := NatToString(n);
      assert s[..|s| - 1] == NatToString(n / 10);
    }
  }
}
