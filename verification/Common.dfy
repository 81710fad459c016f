/** Shared vocabulary: optional values, results that carry an error, Python's notion of blank text, and filtered
    lists. */
module Common {

  datatype Option<+T> = None | Some(value: T)

  datatype Result<+T, +E> = Ok(value: T) | Err(error: E)

  /** The characters Python's `str.strip` and the regular-expression class `\s` treat as whitespace. */
  predicate IsSpace(c: char) {
    || '\t' <= c <= '\r'
    || '\U{1c}' <= c <= ' '
    || c == '\U{85}' || c == '\U{a0}' || c == '\U{1680}'
    || '\U{2000}' <= c <= '\U{200a}'
    || c == '\U{2028}' || c == '\U{2029}' || c == '\U{202f}' || c == '\U{205f}' || c == '\U{3000}'
  }

  /** `not s or not s.strip()`: nothing but whitespace. */
  predicate Blank(s: string) {
    forall i :: 0 <= i < |s| ==> IsSpace(s[i])
  }

  /** The first position at or after `i` that does not hold whitespace, or the end. */
  function SpaceRun(s: string, i: nat): (j: nat)
    requires i <= |s|
    ensures i <= j <= |s|
    ensures forall k :: i <= k < j ==> IsSpace(s[k])
    ensures j < |s| ==> !IsSpace(s[j])
    decreases |s| - i
  {
    if i < |s| && IsSpace(s[i]) then SpaceRun(s, i + 1) else i
  }

  function Lstrip(s: string): string {
    s[SpaceRun(s, 0)..]
  }

  function Rstrip(s: string): (r: string)
    ensures r <= s
    ensures r != "" ==> !IsSpace(r[|r| - 1])
    ensures forall k :: |r| <= k < |s| ==> IsSpace(s[k])
  {
    if s != "" && IsSpace(s[|s| - 1]) then Rstrip(s[..|s| - 1]) else s
  }

  function Strip(s: string): string {
    Lstrip(Rstrip(s))
  }

  /** Nothing for `strip` to remove. */
  predicate Stripped(s: string) {
    s == "" || (!IsSpace(s[0]) && !IsSpace(s[|s| - 1]))
  }

  lemma StripIsStripped(s: string)
    ensures Stripped(Strip(s)) && |Strip(s)| <= |s|
    ensures forall k :: 0 <= k < |Strip(s)| ==> Strip(s)[k] in s
    ensures Stripped(s) ==> Strip(s) == s
  {
    var r := Rstrip(s);
    if Strip(s) != "" {
      assert Strip(s)[0] == r[SpaceRun(r, 0)] && Strip(s)[|Strip(s)| - 1] == r[|r| - 1];
    }
  }

  /** Whitespace around a stripped text is what `strip` removes. */
  lemma StripPadded(before: string, s: string, after: string)
    requires Blank(before) && Blank(after) && Stripped(s)
    ensures Strip(before + s + after) == s
  {
    var all := before + s + after;
    var r := Rstrip(all);
    if s == "" {
      assert forall k :: 0 <= k < |all| ==> IsSpace(all[k]);
    } else {
      assert all[|before| + |s| - 1] == s[|s| - 1];
      forall k | |before| + |s| <= k < |all|
        ensures IsSpace(all[k])
      {
        assert all[k] == after[k - |before| - |s|];
      }
      assert r == before + s;
      assert r[|before|] == s[0];
      assert SpaceRun(r, 0) == |before|;
    }
  }

  // ----- Filtered lists -----

  /** The elements that satisfy a test, in order. */
  function Filter<T>(s: seq<T>, p: T -> bool): seq<T> {
    if s == [] then []
    else Filter(s[..|s| - 1], p) + if p(s[|s| - 1]) then [s[|s| - 1]] else []
  }

  lemma FilterSnoc<T>(s: seq<T>, x: T, p: T -> bool)
    ensures Filter(s + [x], p) == Filter(s, p) + if p(x) then [x] else []
  {
    assert (s + [x])[..|s|] == s;
  }

  lemma {:induction false} FilterTwice<T>(s: seq<T>, p: T -> bool, q: T -> bool, both: T -> bool)
    requires forall i :: 0 <= i < |s| ==> both(s[i]) == (p(s[i]) && q(s[i]))
    ensures Filter(Filter(s, p), q) == Filter(s, both)
  {
    if s != [] {
      var n := |s| - 1;
      FilterTwice(s[..n], p, q, both);
      FilterAppend(Filter(s[..n], p), if p(s[n]) then [s[n]] else [], q);
    }
  }

  lemma {:induction false} FilterAppend<T>(s: seq<T>, t: seq<T>, p: T -> bool)
    ensures Filter(s + t, p) == Filter(s, p) + Filter(t, p)
  {
    if t == [] {
      assert s + t == s;
    } else {
      FilterAppend(s, t[..|t| - 1], p);
      assert (s + t)[..|s + t| - 1] == s + t[..|t| - 1];
    }
  }

  /** The first element that passes the test heads the filtered list. */
  lemma FilterFirst<T>(s: seq<T>, p: T -> bool, i: nat)
    requires i < |s| && p(s[i]) && Filter(s[..i], p) == []
    ensures Filter(s, p) != [] && Filter(s, p)[0] == s[i]
  {
    assert s == s[..i + 1] + s[i + 1..];
    FilterAppend(s[..i + 1], s[i + 1..], p);
    assert s[..i + 1][..i] == s[..i];
  }

  lemma {:induction false} FilterAgree<T>(s: seq<T>, p: T -> bool, q: T -> bool)
    requires forall i :: 0 <= i < |s| ==> p(s[i]) == q(s[i])
    ensures Filter(s, p) == Filter(s, q)
  {
    if s != [] {
      FilterAgree(s[..|s| - 1], p, q);
    }
  }

  lemma {:induction false} FilterEverything<T>(s: seq<T>, p: T -> bool)
    requires forall i :: 0 <= i < |s| ==> p(s[i])
    ensures Filter(s, p) == s
  {
    if s != [] {
      FilterEverything(s[..|s| - 1], p);
    }
  }

  lemma FilterIdempotent<T>(s: seq<T>, p: T -> bool)
    ensures Filter(Filter(s, p), p) == Filter(s, p)
  {
    FilterTwice(s, p, p, p);
  }

  lemma {:induction false} FilterMembers<T>(s: seq<T>, p: T -> bool)
    ensures forall x :: x in Filter(s, p) <==> x in s && p(x)
  {
    if s != [] {
      var n := |s| - 1;
      FilterMembers(s[..n], p);
      assert forall x :: x in s <==> x in s[..n] || x == s[n];
    }
  }

  lemma {:induction false} FilterNone<T>(s: seq<T>, p: T -> bool)
    requires forall i :: 0 <= i < |s| ==> !p(s[i])
    ensures Filter(s, p) == []
  {
    if s != [] {
      FilterNone(s[..|s| - 1], p);
    }
  }

  lemma SplitAt<T>(s: seq<T>, k: nat)
    requires k <= |s|
    ensures s[..k] + s[k..] == s
  {}

  // ----- Multisets of lists -----

  lemma MultisetRemove<T>(s: seq<T>, i: nat)
    requires i < |s|
    ensures multiset(s[..i] + s[i + 1..]) == multiset(s) - multiset{s[i]}
  {
    assert s == s[..i] + [s[i]] + s[i + 1..];
  }

  lemma MultisetFront<T>(s: seq<T>)
    requires s != []
    ensures multiset(s[..|s| - 1]) == multiset(s) - multiset{s[|s| - 1]}
  {
    assert s == s[..|s| - 1] + [s[|s| - 1]];
  }

  /** Two lists of the same elements: the last of the one stands somewhere in the other, and without it they still
      are. */
  lemma MatchLast<T>(s: seq<T>, t: seq<T>) returns (i: nat)
    requires s != [] && multiset(s) == multiset(t)
    ensures i < |t| && t[i] == s[|s| - 1]
    ensures multiset(s[..|s| - 1]) == multiset(t[..i] + t[i + 1..])
  {
    var x := s[|s| - 1];
    assert x in multiset(s);
    assert x in t;
    i :| 0 <= i < |t| && t[i] == x;
    MultisetFront(s);
    MultisetRemove(t, i);
  }

  // ----- Folds whose order does not matter -----

  function Fold<S, T>(f: (S, T) -> S, init: S, s: seq<T>): S {
    if s == [] then init else f(Fold(f, init, s[..|s| - 1]), s[|s| - 1])
  }

  ghost predicate Commutes<S(!new), T(!new)>(f: (S, T) -> S) {
    forall x, a, b :: f(f(x, a), b) == f(f(x, b), a)
  }

  /** One element can be folded in last, wherever it stands. */
  lemma {:induction false} FoldPull<S(!new), T(!new)>(f: (S, T) -> S, init: S, before: seq<T>, a: T, after: seq<T>)
    requires Commutes(f)
    ensures Fold(f, init, (before + [a]) + after) == f(Fold(f, init, before + after), a)
  {
    if after == [] {
      assert (before + [a]) + after == before + [a] && before + after == before;
      assert (before + [a])[..|before|] == before;
    } else {
      var n := |after| - 1;
      FoldPull(f, init, before, a, after[..n]);
      var whole, rest := (before + [a]) + after, before + after;
      assert whole[..|whole| - 1] == (before + [a]) + after[..n];
      assert rest[..|rest| - 1] == before + after[..n];
    }
  }

  lemma {:induction false} FoldPermutation<S(!new), T(!new)>(f: (S, T) -> S, init: S, s: seq<T>, t: seq<T>)
    requires Commutes(f) && multiset(s) == multiset(t)
    ensures Fold(f, init, s) == Fold(f, init, t)
    decreases |s|
  {
    if s == [] {
      assert |multiset(t)| == |multiset(s)| == 0;
    } else {
      var i := MatchLast(s, t);
      FoldPermutation(f, init, s[..|s| - 1], t[..i] + t[i + 1..]);
      FoldPull(f, init, t[..i], t[i], t[i + 1..]);
      assert t == (t[..i] + [t[i]]) + t[i + 1..];
    }
  }

  // ----- Mapped lists -----

  function Mapped<T, U>(f: T -> U, s: seq<T>): seq<U> {
    seq(|s|, i requires 0 <= i < |s| => f(s[i]))
  }

  lemma MappedCons<T, U>(f: T -> U, first: T, rest: seq<T>)
    ensures Mapped(f, [first] + rest) == [f(first)] + Mapped(f, rest)
  {}

  lemma MappedSnoc<T, U>(f: T -> U, front: seq<T>, last: T)
    ensures Mapped(f, front + [last]) == Mapped(f, front) + [f(last)]
  {}
}
