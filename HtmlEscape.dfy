/** `escapeHtml`: one pass over the text that replaces each of the six
    characters HTML gives a meaning to by its character reference. */
module HtmlEscape {
  import opened Strings

  /** The characters the replacement pattern `/[&<>"'`]/g` matches. */
  predicate IsSpecial(c: char) {
    c == '&' || c == '<' || c == '>' || c == '\"' || c == '\'' || c == '`'
  }

  /** The text that stands for `c` in the output. */
  function Entity(c: char): (r: string)
    ensures IsSpecial(c) ==> |r| > 1 && r[0] == '&'
    ensures !IsSpecial(c) ==> r == [c]
  {
    match c
    case '&' => "&amp;"
    case '<' => "&lt;"
    case '>' => "&gt;"
    case '\"' => "&quot;"
    case '\'' => "&#39;"
    case '`' => "&#96;"
    case _ => [c]
  }

  /** The characters besides `&` that the output never contains. */
  predicate IsMarkup(c: char) {
    c == '<' || c == '>' || c == '\"' || c == '\'' || c == '`'
  }

  function EscapeHtml(s: string): (r: string)
    ensures |r| >= |s|
    ensures forall k :: 0 <= k < |r| ==> !IsMarkup(r[k])
  {
    if s == [] then [] else Entity(s[0]) + EscapeHtml(s[1..])
  }

  /** Escaping works character by character. */
  lemma {:induction false} EscapeAppend(a: string, b: string)
    ensures EscapeHtml(a + b) == EscapeHtml(a) + EscapeHtml(b)
  {
    if a == [] {
      assert a + b == b;
    } else {
      assert (a + b)[1..] == a[1..] + b;
      EscapeAppend(a[1..], b);
    }
  }

  /** Text free of the six characters comes out unchanged, and only such text does. */
  lemma {:induction false} EscapeUnchangedIff(s: string)
    ensures EscapeHtml(s) == s <==> forall k :: 0 <= k < |s| ==> !IsSpecial(s[k])
  {
    if s != [] {
      EscapeUnchangedIff(s[1..]);
      if IsSpecial(s[0]) {
        assert |EscapeHtml(s)| > |s|;
      } else {
        if EscapeHtml(s) == s {
          assert EscapeHtml(s[1..]) == EscapeHtml(s)[1..];
        }
        if forall k :: 0 <= k < |s| ==> !IsSpecial(s[k]) {
          assert forall k :: 0 <= k < |s[1..]| ==> !IsSpecial(s[1..][k]) by {
            forall k | 0 <= k < |s[1..]| ensures !IsSpecial(s[1..][k]) {
              assert s[1..][k] == s[k + 1];
            }
          }
        }
      }
    }
  }

  /** Decodes the six references `EscapeHtml` writes; every other character stands for itself. */
  function Unescape(s: string): string
    decreases |s|
  {
    if s == [] then []
    else if StartsWith(s, "&amp;") then "&" + Unescape(s[5..])
    else if StartsWith(s, "&lt;") then "<" + Unescape(s[4..])
    else if StartsWith(s, "&gt;") then ">" + Unescape(s[4..])
    else if StartsWith(s, "&quot;") then "\"" + Unescape(s[6..])
    else if StartsWith(s, "&#39;") then "'" + Unescape(s[5..])
    else if StartsWith(s, "&#96;") then "`" + Unescape(s[5..])
    else [s[0]] + Unescape(s[1..])
  }

  /** A prefix test fails at the first position where the two differ. */
  lemma DiffersAt(s: string, p: string, i: nat)
    requires i < |p| && i < |s| && s[i] != p[i]
    ensures !StartsWith(s, p)
  {
  }

  lemma UnescapeEntity(c: char, t: string)
    ensures Unescape(Entity(c) + t) == [c] + Unescape(t)
  {
    var e := Entity(c);
    var s := e + t;
    assert s[..|e|] == e && s[|e|..] == t;
    assert StartsWith(s, e);
    if !IsSpecial(c) {
      assert s[0] == c && s[1..] == t;
      if c != '&' {
        DiffersAt(s, "&amp;", 0); DiffersAt(s, "&lt;", 0); DiffersAt(s, "&gt;", 0);
        DiffersAt(s, "&quot;", 0); DiffersAt(s, "&#39;", 0); DiffersAt(s, "&#96;", 0);
      }
    } else if c == '<' {
      DiffersAt(s, "&amp;", 1);
    } else if c == '>' {
      DiffersAt(s, "&amp;", 1); DiffersAt(s, "&lt;", 1);
    } else if c == '\"' {
      DiffersAt(s, "&amp;", 1); DiffersAt(s, "&lt;", 1); DiffersAt(s, "&gt;", 1);
    } else if c == '\'' {
      DiffersAt(s, "&amp;", 1); DiffersAt(s, "&lt;", 1); DiffersAt(s, "&gt;", 1);
      DiffersAt(s, "&quot;", 1);
    } else if c == '`' {
      DiffersAt(s, "&amp;", 1); DiffersAt(s, "&lt;", 1); DiffersAt(s, "&gt;", 1);
      DiffersAt(s, "&quot;", 1); DiffersAt(s, "&#39;", 2);
    }
  }

  /** Decoding the escaped text gives back the original. */
  lemma {:induction false} UnescapeEscape(s: string)
    ensures Unescape(EscapeHtml(s)) == s
  {
    if s != [] {
      UnescapeEscape(s[1..]);
      UnescapeEntity(s[0], EscapeHtml(s[1..]));
    }
  }
}
