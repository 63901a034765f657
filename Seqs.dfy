/** Sequence operations the script takes from JavaScript arrays:
    `filter` and `slice`, with the facts the rest of the model uses. */
module Seqs {

  function Min(a: int, b: int): int { if a <= b then a else b }

  function Max(a: int, b: int): int { if a <= b then b else a }

  /** `s.filter(f)`: the elements of `s` that satisfy `f`, in their order. */
  function Filter<T>(f: T -> bool, s: seq<T>): (r: seq<T>)
    ensures |r| <= |s|
  {
    if s == [] then [] else (if f(s[0]) then [s[0]] else []) + Filter(f, s[1..])
  }

  /** The filter keeps exactly the elements that satisfy `f`. */
  lemma {:induction false} FilterMembers<T>(f: T -> bool, s: seq<T>)
    ensures forall x :: x in Filter(f, s) <==> x in s && f(x)
  {
    if s != [] {
      FilterMembers(f, s[1..]);
      assert s == [s[0]] + s[1..];
    }
  }

  /** Filtering distributes over concatenation, so it keeps relative order. */
  lemma {:induction false} FilterAppend<T>(f: T -> bool, a: seq<T>, b: seq<T>)
    ensures Filter(f, a + b) == Filter(f, a) + Filter(f, b)
  {
    if a == [] {
      assert a + b == b;
    } else {
      var head := if f(a[0]) then [a[0]] else [];
      assert (a + b)[0] == a[0] && (a + b)[1..] == a[1..] + b;
      assert Filter(f, a + b) == head + Filter(f, a[1..] + b);
      FilterAppend(f, a[1..], b);
      assert Filter(f, a) == head + Filter(f, a[1..]);
      assert head + (Filter(f, a[1..]) + Filter(f, b)) == (head + Filter(f, a[1..])) + Filter(f, b);
    }
  }

  /** A filter every element passes leaves the sequence as it was. */
  lemma {:induction false} FilterAll<T>(f: T -> bool, s: seq<T>)
    requires forall k :: 0 <= k < |s| ==> f(s[k])
    ensures Filter(f, s) == s
  {
    if s != [] {
      FilterAll(f, s[1..]);
    }
  }

  /** A filter no element passes leaves nothing. */
  lemma {:induction false} FilterNone<T>(f: T -> bool, s: seq<T>)
    requires forall k :: 0 <= k < |s| ==> !f(s[k])
    ensures Filter(f, s) == []
  {
    if s != [] {
      FilterNone(f, s[1..]);
    }
  }

  /** Two filters in a row are one filter by the conjunction. */
  lemma {:induction false} FilterTwice<T>(f: T -> bool, g: T -> bool, h: T -> bool, s: seq<T>)
    requires forall x :: h(x) == (f(x) && g(x))
    ensures Filter(g, Filter(f, s)) == Filter(h, s)
  {
    if s != [] {
      FilterTwice(f, g, h, s[1..]);
      if f(s[0]) {
        assert Filter(f, s) == [s[0]] + Filter(f, s[1..]);
        FilterAppend(g, [s[0]], Filter(f, s[1..]));
        assert Filter(g, [s[0]]) == (if g(s[0]) then [s[0]] else []);
      } else {
        assert Filter(f, s) == Filter(f, s[1..]);
      }
    }
  }

  /** Filters by predicates that agree on every element give the same result. */
  lemma {:induction false} FilterSame<T>(f: T -> bool, g: T -> bool, s: seq<T>)
    requires forall k :: 0 <= k < |s| ==> f(s[k]) == g(s[k])
    ensures Filter(f, s) == Filter(g, s)
  {
    if s != [] {
      FilterSame(f, g, s[1..]);
    }
  }

  /** `s.slice(from, to)` for non-negative bounds: both are clamped to the length. */
  function Slice<T>(s: seq<T>, from: nat, to: nat): (r: seq<T>)
    ensures |r| == Max(0, Min(to, |s|) - Min(from, |s|))
  {
    var i, j := Min(from, |s|), Min(to, |s|);
    if i <= j then s[i..j] else []
  }

  /** The first `n` elements of `s`, or all of them when there are fewer. */
  function Take<T>(s: seq<T>, n: nat): (r: seq<T>)
    ensures |r| == Min(n, |s|)
  {
    s[..Min(n, |s|)]
  }

  /** Taking `a`, then the slice from `a` to `b`, is taking `b`. */
  lemma TakeThenSlice<T>(s: seq<T>, a: nat, b: nat)
    requires a <= b
    ensures Take(s, a) + Slice(s, a, b) == Take(s, b)
  {
    var i, j := Min(a, |s|), Min(b, |s|);
    assert s[..i] + s[i..j] == s[..j];
  }
}
