/** Runs of equal elements: the grouping behind run-length coding. */
module RunLength {
  import opened Seqs

  datatype Run<T> = Run(item: T, n: nat)

  /** The maximal runs of equal elements. */
  function Runs<T(==)>(s: seq<T>): seq<Run<T>> {
    if s == [] then [] else
      var rs, x := Runs(Front(s)), Last(s);
      if rs != [] && Last(rs).item == x then Front(rs) + [Run(x, Last(rs).n + 1)] else rs + [Run(x, 1)]
  }

  function Copies<T>(x: T, n: nat): (r: seq<T>)
    ensures |r| == n
  {
    if n == 0 then [] else Copies(x, n - 1) + [x]
  }

  function Flatten<T>(rs: seq<Run<T>>): seq<T> {
    if rs == [] then [] else Flatten(Front(rs)) + Copies(Last(rs).item, Last(rs).n)
  }

  /** What is written when `code` says what to write for one run. */
  function CodedAll<T>(code: Run<T> -> seq<T>, rs: seq<Run<T>>): seq<T> {
    if rs == [] then [] else CodedAll(code, Front(rs)) + code(Last(rs))
  }

  lemma SnocParts<T>(s: seq<T>, x: T)
    ensures s + [x] != [] && Front(s + [x]) == s && Last(s + [x]) == x
  {
  }

  lemma RunStarts<T>(s: seq<T>, x: T)
    requires Runs(s) != [] ==> Last(Runs(s)).item != x
    ensures Runs(s + [x]) == Runs(s) + [Run(x, 1)]
  {
    SnocParts(s, x);
  }

  lemma RunGoesOn<T>(s: seq<T>, rs: seq<Run<T>>, x: T, n: nat)
    requires Runs(s) == rs + [Run(x, n)]
    ensures Runs(s + [x]) == rs + [Run(x, n + 1)]
  {
    SnocParts(s, x);
    SnocParts(rs, Run(x, n));
  }

  lemma TakeNext<T>(s: seq<T>, i: nat)
    requires i < |s|
    ensures s[..i + 1] == s[..i] + [s[i]]
  {
  }

  /** The elements from i to j are one run, the last of those up to j. */
  ghost predicate OneRun<T>(s: seq<T>, i: nat, j: nat)
    requires i < j <= |s|
  {
    Runs(s[..j]) == Runs(s[..i]) + [Run(s[i], j - i)]
  }

  lemma OneRunStarts<T>(s: seq<T>, i: nat)
    requires i < |s| && (Runs(s[..i]) != [] ==> Last(Runs(s[..i])).item != s[i])
    ensures OneRun(s, i, i + 1)
  {
    TakeNext(s, i);
    RunStarts(s[..i], s[i]);
  }

  lemma OneRunGoesOn<T>(s: seq<T>, i: nat, j: nat)
    requires i < j < |s| && OneRun(s, i, j) && s[j] == s[i]
    ensures OneRun(s, i, j + 1)
  {
    TakeNext(s, j);
    RunGoesOn(s[..j], Runs(s[..i]), s[i], j - i);
  }

  /** The end j of the run that starts at index i. */
  method RunEnd<T(==)>(s: seq<T>, i: nat) returns (j: nat)
    requires i < |s| && (Runs(s[..i]) != [] ==> Last(Runs(s[..i])).item != s[i])
    ensures i < j <= |s| && OneRun(s, i, j)
    ensures j < |s| ==> s[j] != s[i]
  {
    j := i + 1;
    OneRunStarts(s, i);
    while j < |s| && s[j] == s[i]
      invariant i < j <= |s| && OneRun(s, i, j)
    {
      OneRunGoesOn(s, i, j);
      j := j + 1;
    }
  }

  /** Walk over the runs, writing each in its coded form. */
  method CodeRuns<T(==)>(code: Run<T> -> seq<T>, s: seq<T>) returns (out: seq<T>)
    ensures out == CodedAll(code, Runs(s))
  {
    out := [];
    var i := 0;
    while i < |s|
      invariant 0 <= i <= |s|
      invariant out == CodedAll(code, Runs(s[..i]))
      invariant i < |s| && Runs(s[..i]) != [] ==> Last(Runs(s[..i])).item != s[i]
    {
      var j := RunEnd(s, i);
      SnocParts(Runs(s[..i]), Run(s[i], j - i));
      out := out + code(Run(s[i], j - i));
      i := j;
    }
    assert s[..i] == s;
  }

  lemma {:induction false} FlattenRuns<T>(s: seq<T>)
    ensures Flatten(Runs(s)) == s
  {
    if s != [] {
      var rs, x := Runs(Front(s)), Last(s);
      FlattenRuns(Front(s));
      FrontLast(s);
      if rs != [] && Last(rs).item == x {
        SnocParts(Front(rs), Run(x, Last(rs).n + 1));
        ConcatAssociates(Flatten(Front(rs)), Copies(x, Last(rs).n), [x]);
      } else {
        SnocParts(rs, Run(x, 1));
        assert Copies(x, 1) == [x];
      }
    }
  }

  lemma {:induction false} RunsOfCopies<T>(x: T, n: nat)
    requires n > 0
    ensures Runs(Copies(x, n)) == [Run(x, n)]
  {
    if n == 1 {
      RunStarts([], x);
    } else {
      RunsOfCopies(x, n - 1);
      RunGoesOn(Copies(x, n - 1), [], x, n - 1);
    }
  }

  lemma {:induction false} CopiesFront<T>(x: T, n: nat)
    ensures [x] + Copies(x, n) == Copies(x, n + 1)
  {
    if n > 0 {
      CopiesFront(x, n - 1);
      ConcatAssociates([x], Copies(x, n - 1), [x]);
    }
  }

  lemma {:induction false} CopiesAll<T>(p: T -> bool, x: T, n: nat)
    requires p(x)
    ensures forall i :: 0 <= i < n ==> p(Copies(x, n)[i])
  {
    if n > 0 {
      CopiesAll(p, x, n - 1);
    }
  }

  /** A property of all elements is a property of all runs, and runs are not empty. */
  lemma {:induction false} RunsAll<T>(p: T -> bool, s: seq<T>)
    requires forall i :: 0 <= i < |s| ==> p(s[i])
    ensures forall i :: 0 <= i < |Runs(s)| ==> Runs(s)[i].n > 0 && p(Runs(s)[i].item)
    ensures s != [] ==> Runs(s) != []
  {
    if s != [] {
      RunsAll(p, Front(s));
      assert p(s[|s| - 1]);
    }
  }

  // ----- reading coded runs back

  /** A run of three or more, unless blank, is written as its item and a mark; `count` reads a mark. */
  datatype Codec<!T> = Codec(code: Run<T> -> seq<T>, mark: nat -> T, count: T -> nat, blank: T)

  ghost predicate IsCodec<T(!new)>(c: Codec<T>) {
    && (forall n: nat :: n >= 3 ==> c.count(c.mark(n)) == n && c.mark(n) != c.blank)
    && c.count(c.blank) == 0 && (forall x :: c.count(x) == 0 || c.count(x) >= 3)
    && (forall r: Run<T> :: c.code(r) == if r.item != c.blank && r.n >= 3 then [r.item, c.mark(r.n)] else Copies(r.item, r.n))
  }

  /** A mark behind an item that is not blank stands for further copies of that item. */
  function Expand<T(==)>(c: Codec<T>, ls: seq<T>): seq<T> {
    if ls == [] then [] else
      var out, l := Expand(c, Front(ls)), Last(ls);
      if out != [] && Last(out) != c.blank && c.count(l) > 0 then out + Copies(Last(out), c.count(l) - 1) else out + [l]
  }

  function LastOf<T>(s: seq<T>): Option<T> {
    if s == [] then None else Some(Last(s))
  }

  function LastItem<T>(rs: seq<Run<T>>): Option<T> {
    if rs == [] then None else Some(Last(rs).item)
  }

  /** Adjacent runs differ, and no run is empty. */
  ghost predicate Separate<T>(rs: seq<Run<T>>) {
    rs != [] ==> Separate(Front(rs)) && Last(rs).n > 0 && LastItem(Front(rs)) != Some(Last(rs).item)
  }

  lemma {:induction false} RunsSeparate<T>(s: seq<T>)
    ensures Separate(Runs(s))
  {
    if s != [] {
      RunsSeparate(Front(s));
      var rs, x := Runs(Front(s)), Last(s);
      if rs != [] && Last(rs).item == x {
        SnocParts(Front(rs), Run(x, Last(rs).n + 1));
      } else {
        SnocParts(rs, Run(x, 1));
      }
    }
  }

  /** Written behind `before`, run r cannot be mistaken for something else. */
  ghost predicate Clear<T>(c: Codec<T>, before: Option<T>, r: Run<T>) {
    c.count(r.item) > 0 ==> (before.None? || before.value == c.blank) && r.n != 2
  }

  /** No item reads as a mark where the expander would take it for one. */
  ghost predicate Unmistakable<T>(c: Codec<T>, rs: seq<Run<T>>) {
    rs != [] ==> Unmistakable(c, Front(rs)) && Clear(c, LastItem(Front(rs)), Last(rs))
  }

  lemma {:induction false} NoMarksUnmistakable<T>(c: Codec<T>, rs: seq<Run<T>>)
    requires forall i :: 0 <= i < |rs| ==> c.count(rs[i].item) == 0
    ensures Unmistakable(c, rs)
  {
    if rs != [] {
      NoMarksUnmistakable(c, Front(rs));
      assert rs[|rs| - 1] == Last(rs);
    }
  }

  lemma ExpandSnoc<T>(c: Codec<T>, ls: seq<T>, l: T)
    ensures var out := Expand(c, ls);
            Expand(c, ls + [l]) ==
            if out != [] && Last(out) != c.blank && c.count(l) > 0 then out + Copies(Last(out), c.count(l) - 1) else out + [l]
  {
    SnocParts(ls, l);
  }

  lemma {:induction false} ExpandExtends<T>(c: Codec<T>, ls: seq<T>, more: seq<T>)
    ensures Expand(c, ls) <= Expand(c, ls + more)
  {
    if more == [] {
      assert ls + more == ls;
    } else {
      ExpandExtends(c, ls, Front(more));
      FrontLast(more);
      ConcatAssociates(ls, Front(more), [Last(more)]);
      ExpandSnoc(c, ls + Front(more), Last(more));
    }
  }

  lemma {:induction false} ExpandItems<T>(c: Codec<T>, ls: seq<T>, x: T, n: nat)
    requires c.count(x) == 0
    ensures Expand(c, ls + Copies(x, n)) == Expand(c, ls) + Copies(x, n)
  {
    if n == 0 {
      assert ls + [] == ls && Expand(c, ls) + [] == Expand(c, ls);
    } else {
      ExpandItems(c, ls, x, n - 1);
      ConcatAssociates(ls, Copies(x, n - 1), [x]);
      ConcatAssociates(Expand(c, ls), Copies(x, n - 1), [x]);
      ExpandSnoc(c, ls + Copies(x, n - 1), x);
    }
  }

  lemma OneCopy<T>(x: T)
    ensures Copies(x, 1) == [x] && Copies(x, 2) == [x, x]
  {
  }

  /** An item written first, as itself, and then its mark. */
  lemma ExpandMarked<T(!new)>(c: Codec<T>, ls: seq<T>, x: T, n: nat)
    requires IsCodec(c) && n >= 3 && x != c.blank
    requires Expand(c, ls + [x]) == Expand(c, ls) + [x]
    ensures Expand(c, ls + [x, c.mark(n)]) == Expand(c, ls) + Copies(x, n)
  {
    assert ls + [x, c.mark(n)] == ls + [x] + [c.mark(n)];
    ExpandSnoc(c, ls + [x], c.mark(n));
    SnocParts(Expand(c, ls), x);
    ConcatAssociates(Expand(c, ls), [x], Copies(x, n - 1));
    CopiesFront(x, n - 1);
  }

  lemma ClearRunReads<T(!new)>(c: Codec<T>, ls: seq<T>, r: Run<T>)
    requires IsCodec(c) && r.n > 0 && Clear(c, LastOf(Expand(c, ls)), r)
    ensures Expand(c, ls + c.code(r)) == Expand(c, ls) + Copies(r.item, r.n)
  {
    ExpandSnoc(c, ls, r.item);
    if r.item != c.blank && r.n >= 3 {
      ExpandMarked(c, ls, r.item, r.n);
    } else if c.count(r.item) == 0 {
      ExpandItems(c, ls, r.item, r.n);
    } else {
      OneCopy(r.item);
    }
  }

  lemma DiffersAt<T>(e: seq<T>, target: seq<T>, k: nat)
    requires k < |e| && (k < |target| ==> e[k] != target[k])
    ensures !(e <= target)
  {
  }

  lemma AtJoint<T>(a: seq<T>, b: seq<T>, c: seq<T>)
    ensures |b| > 0 ==> (a + b + c)[|a|] == b[0]
    ensures |c| > 0 ==> (a + b + c)[|a| + |b|] == c[0]
  {
  }

  /** An item that reads as a mark, written exactly twice, is read as more copies than that. */
  lemma TwiceReads<T(!new)>(c: Codec<T>, ls: seq<T>, x: T)
    requires IsCodec(c) && c.count(x) > 0 && LastOf(Expand(c, ls)) in {None, Some(c.blank)}
    ensures Expand(c, ls + [x, x]) == Expand(c, ls) + [x] + Copies(x, c.count(x) - 1)
  {
    assert ls + [x, x] == ls + [x] + [x];
    ExpandSnoc(c, ls, x);
    ExpandSnoc(c, ls + [x], x);
    SnocParts(Expand(c, ls), x);
  }

  lemma MarkInsteadReads<T(!new)>(c: Codec<T>, ls: seq<T>, r: Run<T>, rest: seq<T>)
    requires IsCodec(c) && r.n > 0 && c.count(r.item) > 0
    requires Expand(c, ls) != [] && Last(Expand(c, ls)) != c.blank && Last(Expand(c, ls)) != r.item
    ensures !(Expand(c, ls + c.code(r)) <= Expand(c, ls) + Copies(r.item, r.n) + rest)
  {
    TakenForMark(c, ls, r);
    CopiesAre(r.item, r.n, 0);
    AtJoint(Expand(c, ls), Copies(r.item, r.n), rest);
    DiffersAt(Expand(c, ls + c.code(r)), Expand(c, ls) + Copies(r.item, r.n) + rest, |Expand(c, ls)|);
  }

  lemma TwiceInsteadReads<T(!new)>(c: Codec<T>, ls: seq<T>, r: Run<T>, rest: seq<T>)
    requires IsCodec(c) && r.n > 0 && !Clear(c, LastOf(Expand(c, ls)), r)
    requires LastOf(Expand(c, ls)) in {None, Some(c.blank)}
    requires LastOf(Expand(c, ls)) != Some(r.item) && (rest != [] ==> rest[0] != r.item)
    ensures !(Expand(c, ls + c.code(r)) <= Expand(c, ls) + Copies(r.item, r.n) + rest)
  {
    var out, x := Expand(c, ls), r.item;
    OneCopy(x);
    TwiceReads(c, ls, x);
    CopiesAre(x, c.count(x) - 1, 1);
    AtJoint(out, Copies(x, r.n), rest);
    DiffersAt(Expand(c, ls + c.code(r)), out + Copies(x, r.n) + rest, |out| + 2);
  }

  /** A run that is not clear is read as something else, whatever follows it. */
  lemma MistakenRunReads<T(!new)>(c: Codec<T>, ls: seq<T>, r: Run<T>, rest: seq<T>)
    requires IsCodec(c) && r.n > 0 && !Clear(c, LastOf(Expand(c, ls)), r)
    requires LastOf(Expand(c, ls)) != Some(r.item) && (rest != [] ==> rest[0] != r.item)
    ensures !(Expand(c, ls + c.code(r)) <= Expand(c, ls) + Copies(r.item, r.n) + rest)
  {
    if Expand(c, ls) != [] && Last(Expand(c, ls)) != c.blank {
      MarkInsteadReads(c, ls, r, rest);
    } else {
      TwiceInsteadReads(c, ls, r, rest);
    }
  }

  lemma {:induction false} CopiesAre<T>(x: T, n: nat, k: nat)
    requires k < n
    ensures Copies(x, n)[k] == x
  {
    if k < n - 1 {
      CopiesAre(x, n - 1, k);
    }
  }

  lemma CodeStarts<T(!new)>(c: Codec<T>, r: Run<T>)
    requires IsCodec(c) && r.n > 0
    ensures c.code(r) != [] && c.code(r)[0] == r.item
    ensures c.code(r) == [r.item] + c.code(r)[1..]
  {
    CopiesAre(r.item, r.n, 0);
  }

  lemma TakenForMark<T(!new)>(c: Codec<T>, ls: seq<T>, r: Run<T>)
    requires IsCodec(c) && r.n > 0 && c.count(r.item) > 0
    requires Expand(c, ls) != [] && Last(Expand(c, ls)) != c.blank && Last(Expand(c, ls)) != r.item
    ensures var out, e := Expand(c, ls), Expand(c, ls + c.code(r));
            |out| < |e| && e[|out|] == Last(out)
  {
    var out, x := Expand(c, ls), r.item;
    CodeStarts(c, r);
    ExpandSnoc(c, ls, x);
    ConcatAssociates(ls, [x], c.code(r)[1..]);
    ExpandExtends(c, ls + [x], c.code(r)[1..]);
    CopiesAre(Last(out), c.count(x) - 1, 0);
    assert Expand(c, ls + [x])[|out|] == Last(out);
  }

  lemma FlattenEnds<T>(rs: seq<Run<T>>)
    requires Separate(rs)
    ensures LastOf(Flatten(rs)) == LastItem(rs)
  {
    if rs != [] {
      CopiesAre(Last(rs).item, Last(rs).n, Last(rs).n - 1);
    }
  }

  lemma {:induction false} UnmistakableReads<T(!new)>(c: Codec<T>, rs: seq<Run<T>>)
    requires IsCodec(c) && Separate(rs) && Unmistakable(c, rs)
    ensures Expand(c, CodedAll(c.code, rs)) == Flatten(rs)
  {
    if rs != [] {
      UnmistakableReads(c, Front(rs));
      FlattenEnds(Front(rs));
      ClearRunReads(c, CodedAll(c.code, Front(rs)), Last(rs));
    }
  }

  lemma {:induction false} MistakableMisreads<T(!new)>(c: Codec<T>, rs: seq<Run<T>>, rest: seq<T>)
    requires IsCodec(c) && Separate(rs) && !Unmistakable(c, rs)
    requires rest != [] ==> rest[0] != Last(rs).item
    ensures !(Expand(c, CodedAll(c.code, rs)) <= Flatten(rs) + rest)
  {
    var front, r := Front(rs), Last(rs);
    if Unmistakable(c, front) {
      UnmistakableReads(c, front);
      FlattenEnds(front);
      MistakenRunReads(c, CodedAll(c.code, front), r, rest);
    } else {
      CopiesStart(r.item, r.n, rest);
      MistakableMisreads(c, front, Copies(r.item, r.n) + rest);
      StillMisread(c, front, r, rest);
    }
  }

  lemma CopiesStart<T>(x: T, n: nat, rest: seq<T>)
    requires n > 0
    ensures Copies(x, n) + rest != [] && (Copies(x, n) + rest)[0] == x
  {
    CopiesAre(x, n, 0);
  }

  lemma StillMisread<T>(c: Codec<T>, front: seq<Run<T>>, r: Run<T>, rest: seq<T>)
    requires !(Expand(c, CodedAll(c.code, front)) <= Flatten(front) + (Copies(r.item, r.n) + rest))
    ensures !(Expand(c, CodedAll(c.code, front) + c.code(r)) <= Flatten(front) + Copies(r.item, r.n) + rest)
  {
    ConcatAssociates(Flatten(front), Copies(r.item, r.n), rest);
    ExpandExtends(c, CodedAll(c.code, front), c.code(r));
    NoPrefix(Expand(c, CodedAll(c.code, front)), Expand(c, CodedAll(c.code, front) + c.code(r)),
             Flatten(front) + Copies(r.item, r.n) + rest);
  }

  lemma NoPrefix<T>(a: seq<T>, b: seq<T>, target: seq<T>)
    requires a <= b && !(a <= target)
    ensures !(b <= target)
  {
  }

  /** Exactly which runs the expander recovers from their coded form. */
  lemma ExpandRecoversIff<T(!new)>(c: Codec<T>, rs: seq<Run<T>>)
    requires IsCodec(c) && Separate(rs)
    ensures Expand(c, CodedAll(c.code, rs)) == Flatten(rs) <==> Unmistakable(c, rs)
  {
    if Unmistakable(c, rs) {
      UnmistakableReads(c, rs);
    } else {
      MistakableMisreads(c, rs, []);
      assert Flatten(rs) + [] == Flatten(rs);
    }
  }
}
