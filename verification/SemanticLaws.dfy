/** What similarity means, and what becomes of a stored response: how long a lookup finds it. */
module SemanticLaws {
  import opened Seqs
  import opened Semantic

  // ----- similarity

  lemma {:induction false} DotCommutes(a: Vector, b: Vector)
    requires |a| == |b|
    ensures Dot(a, b) == Dot(b, a)
  {
    if a != [] {
      DotCommutes(Front(a), Front(b));
    }
  }

  /** Similarity is symmetric. */
  lemma Symmetric(root: real -> real, a: Vector, b: Vector)
    requires IsRoot(root)
    ensures Similarity(root, a, b) == Similarity(root, b, a)
  {
    if |a| == |b| {
      DotCommutes(a, b);
    }
  }

  lemma QuotientOne(x: real)
    requires x > 0.0
    ensures x / x == 1.0
  {
  }

  /** Every vector but zero is fully similar to itself. */
  lemma SelfSimilar(root: real -> real, a: Vector)
    requires IsRoot(root) && |a| > 0 && Dot(a, a) != 0.0
    ensures Similarity(root, a, a) == 1.0
  {
    NormsPositive(a);
    QuotientOne(Dot(a, a));
  }

  function Scaled(k: real, a: Vector): (r: Vector)
    ensures |r| == |a|
  {
    if a == [] then [] else Scaled(k, Front(a)) + [k * Last(a)]
  }

  lemma ScaledParts(k: real, a: Vector)
    requires a != []
    ensures Front(Scaled(k, a)) == Scaled(k, Front(a)) && Last(Scaled(k, a)) == k * Last(a)
  {
  }

  lemma ScaledStep(k: real, d: real, sd: real, x: real, sx: real, y: real) returns (p: real, sp: real)
    requires sd == k * d && sx == k * x
    ensures p == d + x * y && sp == sd + sx * y && sp == k * p
  {
    p, sp := d + x * y, sd + sx * y;
    assert sx * y == k * (x * y);
  }

  /** Dot products and scaled dot products, built up together. */
  lemma {:induction false} DotsScaled(k: real, a: Vector, b: Vector) returns (d: real, sd: real)
    requires |a| == |b|
    ensures d == Dot(a, b) && sd == Dot(Scaled(k, a), b) && sd == k * d
  {
    if a == [] {
      d, sd := 0.0, 0.0;
    } else {
      d, sd := DotsScaled(k, Front(a), Front(b));
      ScaledParts(k, a);
      d, sd := ScaledStep(k, d, sd, Last(a), Last(Scaled(k, a)), Last(b));
    }
  }

  lemma DotScaled(k: real, a: Vector, b: Vector)
    requires |a| == |b|
    ensures Dot(Scaled(k, a), b) == k * Dot(a, b)
  {
    var d, sd := DotsScaled(k, a, b);
  }

  lemma NormScaled(k: real, a: Vector)
    ensures Dot(Scaled(k, a), Scaled(k, a)) == k * k * Dot(a, a)
  {
    DotScaled(k, a, Scaled(k, a));
    DotCommutes(a, Scaled(k, a));
    DotScaled(k, a, a);
    assert k * (k * Dot(a, a)) == k * k * Dot(a, a);
  }

  lemma RootUnique(y: real, z: real)
    requires y > 0.0 && z > 0.0 && y * y == z * z
    ensures y == z
  {
    SquareOrder(y, z);
    SquareOrder(z, y);
  }

  lemma RootScaled(root: real -> real, k: real, x: real, y: real)
    requires IsRoot(root) && k > 0.0 && x > 0.0 && y > 0.0 && y == k * k * x
    ensures root(y) == k * root(x)
  {
    var s := root(x);
    ProductPositive(k, s);
    assert (k * s) * (k * s) == k * k * (s * s);
    RootUnique(root(y), k * s);
  }

  lemma StretchedPositive(k: real, x: real, y: real)
    requires k > 0.0 && x > 0.0 && y == k * k * x
    ensures y > 0.0
  {
    ProductPositive(k, x);
    ProductPositive(k, k * x);
    assert k * (k * x) == y;
  }

  lemma CosineScaled(k: real, d: real, s: real, t: real)
    requires k > 0.0 && s > 0.0 && t > 0.0
    ensures k * s > 0.0 && Cosine(k * d, k * s, t) == Cosine(d, s, t)
  {
    ProductPositive(k, s);
    ProductPositive(s, t);
    ProductPositive(k * s, t);
    var q, b := d / (s * t), k * s * t;
    assert q * (s * t) == d;
    assert q * b == k * (q * (s * t)) by {
      assert b == k * (s * t);
    }
    assert b > 0.0 && q * b / b == q;
  }

  lemma ScaledCosine(root: real -> real, k: real, x: real, y: real, d: real, sx: real, sd: real)
    requires IsRoot(root) && k > 0.0 && x > 0.0 && y > 0.0 && sx == k * k * x && sd == k * d
    ensures sx > 0.0 && Cosine(sd, root(sx), root(y)) == Cosine(d, root(x), root(y))
  {
    StretchedPositive(k, x, sx);
    RootScaled(root, k, x, sx);
    CosineScaled(k, d, root(x), root(y));
  }

  lemma NormPositive(a: Vector)
    requires Dot(a, a) != 0.0
    ensures Dot(a, a) > 0.0
  {
    NormsPositive(a);
  }

  lemma SimilarityIs(root: real -> real, a: Vector, b: Vector)
    requires IsRoot(root) && |a| == |b| > 0 && Dot(a, a) > 0.0 && Dot(b, b) > 0.0
    ensures Similarity(root, a, b) == Cosine(Dot(a, b), root(Dot(a, a)), root(Dot(b, b)))
  {
  }

  /** Only the direction of a vector counts: making it longer changes no similarity. */
  lemma ScaleFree(root: real -> real, k: real, a: Vector, b: Vector)
    requires IsRoot(root) && k > 0.0
    ensures Similarity(root, Scaled(k, a), b) == Similarity(root, a, b)
  {
    if |a| == |b| && |a| > 0 {
      NormScaled(k, a);
      DotScaled(k, a, b);
      if Dot(a, a) != 0.0 && Dot(b, b) != 0.0 {
        NormPositive(a);
        NormPositive(b);
        ScaledCosine(root, k, Dot(a, a), Dot(b, b), Dot(a, b), Dot(Scaled(k, a), Scaled(k, a)), Dot(Scaled(k, a), b));
        SimilarityIs(root, a, b);
        SimilarityIs(root, Scaled(k, a), b);
      }
    }
  }

  // ----- lookups

  /** Which entries a lookup takes into account: those with no expiry or not past it, of positive similarity at or
      above the threshold. */
  lemma QualifiesIff(root: real -> real, e: Entry, vec: Vector, threshold: real, now: int)
    requires IsRoot(root)
    ensures Qualifies(root, e, vec, threshold, now) <==>
            && (e.expiresAt.None? || now <= e.expiresAt.value)
            && Similarity(root, vec, e.vec) > 0.0 && Similarity(root, vec, e.vec) >= threshold
  {
  }

  /** Of those there is exactly one best: the first that none exceeds. */
  lemma BestIs(root: real -> real, es: seq<Entry>, vec: Vector, threshold: real, now: int, i: nat, j: nat)
    requires IsRoot(root) && i < |es| && j < |es| && IsBest(root, es, vec, threshold, now, i)
    requires Qualifies(root, es[j], vec, threshold, now)
    ensures Qualifies(root, es[i], vec, threshold, now)
    ensures Similarity(root, vec, es[j].vec) <= Similarity(root, vec, es[i].vec)
    ensures Similarity(root, vec, es[j].vec) == Similarity(root, vec, es[i].vec) ==> i <= j
  {
  }

  // ----- how long an entry stays

  /** e is in the cache with at most n entries behind it. */
  ghost predicate Near(es: seq<Entry>, e: Entry, n: nat) {
    exists i :: 0 <= i < |es| && es[i] == e && |es| - 1 - i <= n
  }

  predicate LivesAt(e: Entry, now: int) {
    e.expiresAt.None? || now <= e.expiresAt.value
  }

  lemma EvictedNear(es: seq<Entry>, now: int, e: Entry, n: nat)
    requires Near(es, e, n) && LivesAt(e, now) && n < |es| - 1
    ensures Near(Evicted(es, now), e, n)
  {
    var i :| 0 <= i < |es| && es[i] == e && |es| - 1 - i <= n;
    var k := FirstExpired(es, now);
    var gone := if k < |es| then k else 0;
    assert gone != i;
    assert Evicted(es, now)[if i < gone then i else i - 1] == e;
  }

  lemma StoredNear(maxSize: int, es: seq<Entry>, f: Entry, now: int, e: Entry, n: nat)
    requires Near(es, e, n) && LivesAt(e, now) && (maxSize > 0 ==> n + 1 < maxSize)
    ensures Near(Stored(maxSize, es, f, now), e, n + 1)
  {
    if maxSize > 0 && |es| >= maxSize {
      EvictedNear(es, now, e, n);
    }
    var rest := if maxSize > 0 && |es| >= maxSize then Evicted(es, now) else es;
    var i :| 0 <= i < |rest| && rest[i] == e && |rest| - 1 - i <= n;
    assert (rest + [f])[i] == e;
  }

  /** No store of the run is later than T. */
  predicate Until(run: seq<Put>, T: int) {
    forall i :: 0 <= i < |run| ==> run[i].at <= T
  }

  lemma {:induction false} StaysNear(maxSize: int, run: seq<Put>, e: Entry, at: int, next: seq<Put>, T: int)
    requires Until(next, T) && LivesAt(e, T) && (maxSize > 0 ==> |next| < maxSize)
    ensures Near(After(maxSize, run + [Put(e, at)] + next), e, |next|)
  {
    if next == [] {
      assert run + [Put(e, at)] + next == run + [Put(e, at)] && Front(run + [Put(e, at)]) == run;
      var es := After(maxSize, run + [Put(e, at)]);
      assert es[|es| - 1] == e;
    } else {
      assert Front(run + [Put(e, at)] + next) == run + [Put(e, at)] + Front(next);
      assert next[|next| - 1] == Last(next);
      StaysNear(maxSize, run, e, at, Front(next), T);
      var es := After(maxSize, run + [Put(e, at)] + Front(next));
      StoredNear(maxSize, es, Last(next).e, Last(next).at, e, |Front(next)|);
    }
  }

  /** A stored response is found again: after any run, while fewer than maxSize others are stored and its time to
      live is not over, a lookup of the same vector with any threshold up to 1 has a hit. */
  lemma StoredIsFound(
    root: real -> real, maxSize: int, run: seq<Put>, vec: Vector, resp: string, ttl: int, at: int,
    next: seq<Put>, threshold: real, T: int) returns (i: nat)
    requires IsRoot(root) && |vec| > 0 && Dot(vec, vec) != 0.0 && threshold <= 1.0
    requires Until(next, T) && (maxSize > 0 ==> |next| < maxSize) && (ttl <= 0 || T <= at + ttl)
    ensures var es := After(maxSize, run + [Put(Entry(vec, resp, if ttl > 0 then Some(at + ttl) else None), at)] + next);
            i < |es| && Qualifies(root, es[i], vec, threshold, T) && es[i].resp == resp
  {
    var e := Entry(vec, resp, if ttl > 0 then Some(at + ttl) else None);
    var es := After(maxSize, run + [Put(e, at)] + next);
    StaysNear(maxSize, run, e, at, next, T);
    i :| 0 <= i < |es| && es[i] == e && |es| - 1 - i <= |next|;
    SelfSimilar(root, vec);
  }
}
