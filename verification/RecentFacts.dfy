/** Recent facts of a user: the newest entry of every category, newest first, at most n of them.
    Sorting is a library call that keeps no order among equal times: it is any function that sorts. */
module RecentFacts {
  import opened Seqs
  import M = MemoryStore

  type Entry = M.Entry

  ghost predicate Descending(s: seq<Entry>) {
    forall i, j :: 0 <= i < j < |s| ==> s[i].createdAt >= s[j].createdAt
  }

  ghost predicate Sorts(order: seq<Entry> -> seq<Entry>) {
    forall s :: multiset(order(s)) == multiset(s) && Descending(order(s))
  }

  function Categories(s: seq<Entry>): set<string> {
    if s == [] then {} else Categories(Front(s)) + {Last(s).category}
  }

  /** The first entry of every category, in order. */
  function Firsts(s: seq<Entry>): (r: seq<Entry>)
    ensures |r| == |Categories(s)|
  {
    if s == [] then []
    else if Last(s).category in Categories(Front(s)) then
      assert Categories(s) == Categories(Front(s));
      Firsts(Front(s))
    else Firsts(Front(s)) + [Last(s)]
  }

  /** At least one entry is returned, even when none is asked for. */
  function Quota(n: int): nat {
    Max(n, 1)
  }

  function Picked(s: seq<Entry>, n: int): seq<Entry> {
    var fs := Firsts(s);
    if |fs| <= Quota(n) then fs else fs[..Quota(n)]
  }

  method Recent(store: M.Store, u: string, n: int, now: int, order: seq<Entry> -> seq<Entry>) returns (r: seq<Entry>)
    requires M.Filed(store.entries)
    modifies store`entries
    ensures M.Filed(store.entries) && store.entries == M.Pruned(store.cfg, old(store.entries), u, now)
    ensures r == Picked(order(M.Get(store.entries, u)), n)
  {
    var all := store.All(u, now);
    r := Pick(order(all), n);
  }

  method Pick(s: seq<Entry>, n: int) returns (r: seq<Entry>)
    ensures r == Picked(s, n)
  {
    r := [];
    var seen: set<string> := {};
    for i := 0 to |s|
      invariant seen == Categories(s[..i]) && r == Firsts(s[..i]) && |r| < Quota(n)
    {
      FirstsNext(s, i);
      var e := s[i];
      if e.category in seen {
        continue;
      }
      seen := seen + {e.category};
      r := r + [e];
      if |r| >= n {
        PickedAt(s, i + 1, n);
        return;
      }
    }
    assert s[..|s|] == s;
  }

  lemma FirstsNext(s: seq<Entry>, i: nat)
    requires i < |s|
    ensures var t, c := s[..i], s[i].category;
            && Categories(s[..i + 1]) == (if c in Categories(t) then Categories(t) else Categories(t) + {c})
            && Firsts(s[..i + 1]) == (if c in Categories(t) then Firsts(t) else Firsts(t) + [s[i]])
  {
    assert Front(s[..i + 1]) == s[..i];
  }

  lemma PickedAt(s: seq<Entry>, i: nat, n: int)
    requires i <= |s| && |Firsts(s[..i])| == Quota(n)
    ensures Picked(s, n) == Firsts(s[..i])
  {
    FirstsPrefix(s, i);
  }

  lemma {:induction false} FirstsPrefix(s: seq<Entry>, i: nat)
    requires i <= |s|
    ensures |Firsts(s[..i])| <= |Firsts(s)| && Firsts(s[..i]) == Firsts(s)[..|Firsts(s[..i])|]
    ensures |Firsts(s)| <= |Firsts(s[..i])| + |s| - i
  {
    if i < |s| {
      FirstsPrefix(Front(s), i);
      assert Front(s)[..i] == s[..i];
    } else {
      assert s[..i] == s;
    }
  }

  // ----- what is returned

  lemma {:induction false} CategoriesHave(s: seq<Entry>, c: string)
    ensures c in Categories(s) <==> exists i :: 0 <= i < |s| && s[i].category == c
  {
    if s != [] {
      CategoriesHave(Front(s), c);
      if c in Categories(Front(s)) {
        var i :| 0 <= i < |Front(s)| && Front(s)[i].category == c;
        assert s[i].category == c;
      }
      assert s[|s| - 1] == Last(s);
    }
  }

  /** The firsts stand for their categories: different ones, each at the first position of its own. */
  lemma {:induction false} FirstAt(s: seq<Entry>, k: nat) returns (i: nat)
    requires k < |Firsts(s)|
    ensures i < |s| && s[i] == Firsts(s)[k] && Firsts(s[..i]) == Firsts(s)[..k]
    ensures forall j :: 0 <= j < i ==> s[j].category != s[i].category
  {
    var front := Firsts(Front(s));
    if k < |front| {
      i := FirstAt(Front(s), k);
      assert Front(s)[..i] == s[..i];
      assert forall j :: 0 <= j < i ==> s[j] == Front(s)[j];
    } else {
      i := |s| - 1;
      CategoriesHave(Front(s), Last(s).category);
      assert s[..i] == Front(s);
      forall j | 0 <= j < i ensures s[j].category != s[i].category {
        assert s[j] == Front(s)[j];
      }
    }
  }

  /** An entry behind the k-th first, or of a category that comes later, is not newer. */
  ghost predicate NewestOfRest(all: seq<Entry>, fs: seq<Entry>, k: nat)
    requires k < |fs|
  {
    && fs[k] in all
    && forall f :: f in all && f.category !in Categories(fs[..k]) ==> f.createdAt <= fs[k].createdAt
  }

  lemma {:induction false} FirstsCategories(s: seq<Entry>)
    ensures Categories(Firsts(s)) == Categories(s)
  {
    if s != [] {
      FirstsCategories(Front(s));
      if Last(s).category !in Categories(Front(s)) {
        assert Front(Firsts(s)) == Firsts(Front(s));
      }
    }
  }

  lemma CategoryAt(s: seq<Entry>, i: nat, j: nat)
    requires j < i <= |s|
    ensures s[j].category in Categories(s[..i])
  {
    CategoriesHave(s[..i], s[j].category);
    assert s[..i][j] == s[j];
  }

  lemma NotNewer(s: seq<Entry>, i: nat, f: Entry)
    requires Descending(s) && i < |s| && f in s && f.category !in Categories(s[..i])
    ensures f.createdAt <= s[i].createdAt
  {
    var j :| 0 <= j < |s| && s[j] == f;
    if j < i {
      CategoryAt(s, i, j);
    }
  }

  lemma FirstIsNewest(s: seq<Entry>, k: nat)
    requires Descending(s) && k < |Firsts(s)|
    ensures NewestOfRest(s, Firsts(s), k)
  {
    var i := FirstAt(s, k);
    FirstsCategories(s[..i]);
    forall f | f in s && f.category !in Categories(Firsts(s)[..k]) ensures f.createdAt <= Firsts(s)[k].createdAt {
      NotNewer(s, i, f);
    }
  }

  lemma RecentAt(s: seq<Entry>, all: seq<Entry>, k: nat)
    requires Descending(s) && multiset(s) == multiset(all) && k < |Firsts(s)|
    ensures NewestOfRest(all, Firsts(s), k) && Firsts(s)[k].category !in Categories(Firsts(s)[..k])
  {
    FirstIsNewest(s, k);
    SameElements(s, all);
    NewCategory(s, k);
  }

  lemma NewCategory(s: seq<Entry>, k: nat)
    requires k < |Firsts(s)|
    ensures Firsts(s)[k].category !in Categories(Firsts(s)[..k])
  {
    var i := FirstAt(s, k);
    FirstsCategories(s[..i]);
    CategoriesHave(s[..i], s[i].category);
  }

  /** Of a user's live entries all: the k-th result is a newest one among those whose category has not
      been returned yet, and the results end only at the quota or when no category is left. */
  lemma RecentSpec(order: seq<Entry> -> seq<Entry>, all: seq<Entry>, n: int)
    requires Sorts(order)
    ensures var r := Picked(order(all), n);
            && |r| == Min(Quota(n), |Categories(all)|)
            && forall k :: 0 <= k < |r| ==> NewestOfRest(all, r, k) && r[k].category !in Categories(r[..k])
  {
    var s := order(all);
    SameCategories(s, all);
    var fs, r := Firsts(s), Picked(s, n);
    forall k | 0 <= k < |r| ensures NewestOfRest(all, r, k) && r[k].category !in Categories(r[..k]) {
      RecentAt(s, all, k);
      assert r[..k] == fs[..k];
    }
  }

  lemma SameElements(a: seq<Entry>, b: seq<Entry>)
    requires multiset(a) == multiset(b)
    ensures forall e :: e in a <==> e in b
  {
    assert forall e :: e in a <==> e in multiset(a);
    assert forall e :: e in b <==> e in multiset(b);
  }

  lemma SameCategories(a: seq<Entry>, b: seq<Entry>)
    requires multiset(a) == multiset(b)
    ensures Categories(a) == Categories(b)
  {
    SameElements(a, b);
    forall c ensures c in Categories(a) <==> c in Categories(b) {
      CategoriesHave(a, c);
      CategoriesHave(b, c);
      if c in Categories(a) {
        var i :| 0 <= i < |a| && a[i].category == c;
        assert a[i] in b;
      }
      if c in Categories(b) {
        var i :| 0 <= i < |b| && b[i].category == c;
        assert b[i] in a;
      }
    }
  }

  /** "Up to n entries" holds exactly when at least one is asked for or there is nothing to return. */
  lemma AtMostAskedIff(order: seq<Entry> -> seq<Entry>, all: seq<Entry>, n: int)
    requires Sorts(order)
    ensures |Picked(order(all), n)| <= n <==> n >= 1 || (n == 0 && all == [])
  {
    RecentSpec(order, all, n);
    if all != [] {
      CategoriesHave(all, all[0].category);
      assert all[0].category in Categories(all);
      assert Categories(all) != {};
    }
  }
}
