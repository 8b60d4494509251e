/** Sequence vocabulary shared by the models: option values, filters, suffixes and sums.
    Recursive definitions peel the LAST element, so that a loop over `s[..i]` and a run that grows
    at its end unfold in the same direction. */
module Seqs {

  datatype Option<+T> = None | Some(value: T)

  function Last<T>(s: seq<T>): (x: T)
    requires s != []
  {
    s[|s| - 1]
  }

  function Front<T>(s: seq<T>): (r: seq<T>)
    requires s != []
  {
    s[..|s| - 1]
  }

  lemma FrontLast<T>(s: seq<T>)
    requires s != []
    ensures s == Front(s) + [Last(s)]
  {
  }

  lemma ConcatAssociates<T>(a: seq<T>, b: seq<T>, c: seq<T>)
    ensures a + (b + c) == a + b + c
  {
  }

  lemma Three<T>(a: T, b: T, c: T)
    ensures [a, b, c] == [] + [a] + [b] + [c]
  {
  }

  function Max(a: int, b: int): (m: int) {
    if a < b then b else a
  }

  function Min(a: int, b: int): (m: int) {
    if a < b then a else b
  }

  /** The elements of s that satisfy p, in order. */
  function Filter<T>(p: T -> bool, s: seq<T>): (r: seq<T>)
    ensures |r| <= |s|
  {
    if s == [] then []
    else if p(Last(s)) then Filter(p, Front(s)) + [Last(s)]
    else Filter(p, Front(s))
  }

  lemma {:induction false} FilterIn<T>(p: T -> bool, s: seq<T>, x: T)
    ensures x in Filter(p, s) <==> x in s && p(x)
  {
    if s != [] {
      FilterIn(p, Front(s), x);
      assert x in s <==> x in Front(s) || x == Last(s);
    }
  }

  lemma FilterSnoc<T>(p: T -> bool, s: seq<T>, x: T)
    ensures Filter(p, s + [x]) == if p(x) then Filter(p, s) + [x] else Filter(p, s)
  {
    assert Front(s + [x]) == s;
  }

  lemma {:induction false} FilterConcat<T>(p: T -> bool, a: seq<T>, b: seq<T>)
    ensures Filter(p, a + b) == Filter(p, a) + Filter(p, b)
  {
    if b == [] {
      assert a + b == a;
    } else {
      FilterConcat(p, a, Front(b));
      assert Front(a + b) == a + Front(b);
    }
  }

  lemma {:induction false} FilterAll<T>(p: T -> bool, s: seq<T>)
    requires forall i :: 0 <= i < |s| ==> p(s[i])
    ensures Filter(p, s) == s
  {
    if s != [] {
      FilterAll(p, Front(s));
      FrontLast(s);
    }
  }

  lemma {:induction false} FilterNone<T>(p: T -> bool, s: seq<T>)
    requires forall i :: 0 <= i < |s| ==> !p(s[i])
    ensures Filter(p, s) == []
  {
    if s != [] {
      FilterNone(p, Front(s));
    }
  }

  /** Filtering by q what a weaker p already kept is filtering by q. */
  lemma {:induction false} FilterTwice<T>(p: T -> bool, q: T -> bool, s: seq<T>)
    requires forall i :: 0 <= i < |s| && q(s[i]) ==> p(s[i])
    ensures Filter(q, Filter(p, s)) == Filter(q, s)
  {
    if s != [] {
      FilterTwice(p, q, Front(s));
      if p(Last(s)) {
        FilterConcat(q, Filter(p, Front(s)), [Last(s)]);
      }
    }
  }

  lemma {:induction false} FilterCounts<T>(p: T -> bool, s: seq<T>, x: T)
    ensures multiset(Filter(p, s))[x] == if p(x) then multiset(s)[x] else 0
  {
    if s != [] {
      FilterCounts(p, Front(s), x);
      FrontLast(s);
    }
  }

  lemma {:induction false} FilterSplits<T>(p: T -> bool, q: T -> bool, s: seq<T>)
    requires forall i :: 0 <= i < |s| ==> q(s[i]) == !p(s[i])
    ensures |Filter(p, s)| + |Filter(q, s)| == |s|
  {
    if s != [] {
      assert q(s[|s| - 1]) == !p(s[|s| - 1]);
      FilterSplits(p, q, Front(s));
    }
  }

  lemma {:induction false} FilterFull<T>(p: T -> bool, s: seq<T>)
    requires |Filter(p, s)| == |s|
    ensures Filter(p, s) == s
  {
    if s != [] {
      FilterFull(p, Front(s));
      FrontLast(s);
    }
  }

  function RemoveAt<T>(s: seq<T>, i: nat): (r: seq<T>)
    requires i < |s|
    ensures |r| == |s| - 1
  {
    s[..i] + s[i + 1..]
  }

  lemma SplitAt<T>(s: seq<T>, i: nat)
    requires i < |s|
    ensures s == s[..i] + [s[i]] + s[i + 1..]
    ensures multiset(s) == multiset(RemoveAt(s, i)) + multiset{s[i]}
  {
    assert s == s[..i] + [s[i]] + s[i + 1..];
  }

  /** The last n elements of s, or all of s when it is no longer than that. */
  function TakeLast<T>(s: seq<T>, n: nat): (r: seq<T>)
    ensures |r| == if |s| <= n then |s| else n
  {
    if |s| <= n then s else s[|s| - n..]
  }

  /** Trimming early and trimming once at the end keep the same suffix. */
  lemma TakeLastAbsorbs<T>(a: seq<T>, b: seq<T>, n: nat)
    ensures TakeLast(TakeLast(a, n) + b, n) == TakeLast(a + b, n)
  {
  }

  lemma TakeLastSnoc<T>(s: seq<T>, x: T, n: nat)
    ensures TakeLast(s + [x], n + 1) == TakeLast(s, n) + [x]
  {
  }

  lemma {:induction false} SubsetSize<T>(a: set<T>, b: set<T>)
    requires a <= b
    ensures |a| <= |b|
  {
    if a != {} {
      var x :| x in a;
      SubsetSize(a - {x}, b - {x});
    }
  }
}
