/** Small facts about sequences used by several models. */
module Sequences {

  /** All but the last element. */
  function Front<T>(s: seq<T>): (r: seq<T>)
    requires s != []
    ensures |r| < |s|
  {
    s[..|s| - 1]
  }

  function Last<T>(s: seq<T>): T
    requires s != []
  {
    s[|s| - 1]
  }

  /** The sum of `f` over a sequence. */
  function Sum<T>(s: seq<T>, f: T -> int): int {
    if s == [] then 0 else f(s[0]) + Sum(s[1..], f)
  }

  lemma {:induction false} SumAppend<T>(a: seq<T>, b: seq<T>, f: T -> int)
    ensures Sum(a + b, f) == Sum(a, f) + Sum(b, f)
  {
    if a == [] {
      assert a + b == b;
    } else {
      assert (a + b)[0] == a[0] && (a + b)[1..] == a[1..] + b;
      SumAppend(a[1..], b, f);
    }
  }

  lemma SumRemove<T>(s: seq<T>, i: nat, f: T -> int)
    requires i < |s|
    ensures Sum(s, f) == f(s[i]) + Sum(s[..i] + s[i + 1..], f)
  {
    assert s == s[..i] + ([s[i]] + s[i + 1..]);
    SumAppend(s[..i], [s[i]] + s[i + 1..], f);
    SumAppend(s[..i], s[i + 1..], f);
    assert ([s[i]] + s[i + 1..])[1..] == s[i + 1..];
  }

  lemma MultisetRemove<T>(s: seq<T>, i: nat)
    requires i < |s|
    ensures multiset(s[..i] + s[i + 1..]) == multiset(s) - multiset{s[i]}
  {
    assert s == s[..i] + [s[i]] + s[i + 1..];
  }

  lemma IndexOf<T>(s: seq<T>, x: T) returns (i: nat)
    requires x in multiset(s)
    ensures i < |s| && s[i] == x
  {
    i :| 0 <= i < |s| && s[i] == x;
  }

  /** Two permutations of each other stay so when one occurrence of the same element leaves both. */
  lemma MatchHead<T>(a: seq<T>, b: seq<T>) returns (i: nat)
    requires a != [] && multiset(a) == multiset(b)
    ensures i < |b| && b[i] == a[0] && multiset(a[1..]) == multiset(b[..i] + b[i + 1..])
  {
    i := IndexOf(b, a[0]) by {
      assert a[0] in multiset(a);
    }
    MultisetRemove(a, 0);
    assert a[..0] + a[1..] == a[1..];
    MultisetRemove(b, i);
  }

  /** Sums do not depend on the order. */
  lemma {:induction false} SumPermutes<T>(a: seq<T>, b: seq<T>, f: T -> int)
    requires multiset(a) == multiset(b)
    ensures Sum(a, f) == Sum(b, f)
    decreases |a|
  {
    if a == [] {
      assert |multiset(b)| == 0;
    } else {
      var i := MatchHead(a, b);
      SumRemove(b, i, f);
      SumPermutes(a[1..], b[..i] + b[i + 1..], f);
    }
  }
}
