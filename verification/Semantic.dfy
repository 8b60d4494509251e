/** The semantic cache backend: cosine similarity over stored vectors. Arithmetic is exact: floating
    point rounding is not modelled, and `root` is any function that squares back to its argument. */
module Semantic {
  import opened Seqs

  type Vector = seq<real>

  function Dot(a: Vector, b: Vector): real
    requires |a| == |b|
  {
    if a == [] then 0.0 else Dot(Front(a), Front(b)) + Last(a) * Last(b)
  }

  ghost predicate IsRoot(root: real -> real) {
    forall x :: x > 0.0 ==> root(x) > 0.0 && root(x) * root(x) == x
  }

  function Similarity(root: real -> real, a: Vector, b: Vector): real
    requires IsRoot(root)
  {
    if |a| != |b| || |a| == 0 then 0.0
    else if Dot(a, a) == 0.0 || Dot(b, b) == 0.0 then 0.0
    else
      NormsPositive(a);
      NormsPositive(b);
      Cosine(Dot(a, b), root(Dot(a, a)), root(Dot(b, b)))
  }

  function Cosine(dot: real, normA: real, normB: real): real
    requires normA > 0.0 && normB > 0.0
  {
    ProductPositive(normA, normB);
    dot / (normA * normB)
  }

  lemma {:induction false} NormsPositive(a: Vector)
    ensures Dot(a, a) >= 0.0
  {
    if a != [] {
      NormsPositive(Front(a));
      SquareNonNegative(Last(a));
    }
  }

  lemma SquareNonNegative(x: real)
    ensures x * x >= 0.0
  {
  }

  method CosineSimilarity(root: real -> real, a: Vector, b: Vector) returns (r: real)
    requires IsRoot(root)
    ensures r == Similarity(root, a, b)
  {
    if |a| != |b| || |a| == 0 {
      return 0.0;
    }
    var dot, normA, normB := 0.0, 0.0, 0.0;
    for i := 0 to |a|
      invariant dot == Dot(a[..i], b[..i]) && normA == Dot(a[..i], a[..i]) && normB == Dot(b[..i], b[..i])
    {
      assert Front(a[..i + 1]) == a[..i] && Front(b[..i + 1]) == b[..i];
      dot := dot + a[i] * b[i];
      normA := normA + a[i] * a[i];
      normB := normB + b[i] * b[i];
    }
    assert a[..|a|] == a && b[..|b|] == b;
    if normA == 0.0 || normB == 0.0 {
      return 0.0;
    }
    NormsPositive(a);
    NormsPositive(b);
    ProductPositive(root(normA), root(normB));
    r := dot / (root(normA) * root(normB));
  }

  // ----- Cauchy-Schwarz

  lemma ProductPositive(x: real, y: real)
    requires x > 0.0 && y > 0.0
    ensures x * y > 0.0
  {
  }

  /** A non-negative number whose square is at least that of y is at least y. */
  lemma SquareOrder(x: real, y: real)
    requires x >= 0.0 && y * y <= x * x
    ensures y <= x
  {
    if y > x {
      ProductPositive(y - x, y + x);
    }
  }

  lemma ProductMonotone(x: real, y: real, z: real)
    requires x <= y && z >= 0.0
    ensures x * z <= y * z
  {
  }

  /** Twice a cross term is below the sum of the squares it comes from. */
  lemma CrossTerm(d: real, p: real, q: real, x: real, y: real)
    requires p >= 0.0 && q >= 0.0 && d * d <= p * q
    ensures 2.0 * (d * (x * y)) <= p * (y * y) + q * (x * x)
  {
    var u, v, c := p * (y * y), q * (x * x), d * (x * y);
    SquareNonNegative(x);
    SquareNonNegative(y);
    ProductMonotone(0.0, p, y * y);
    ProductMonotone(0.0, q, x * x);
    CrossSquare(d, p, q, x, y);
    SumSquare(u, v);
    assert (2.0 * c) * (2.0 * c) == 4.0 * (c * c);
    SquareOrder(u + v, 2.0 * c);
  }

  lemma CrossSquare(d: real, p: real, q: real, x: real, y: real)
    requires d * d <= p * q
    ensures (d * (x * y)) * (d * (x * y)) <= (p * (y * y)) * (q * (x * x))
  {
    var s := (x * y) * (x * y);
    SquareNonNegative(x * y);
    ProductMonotone(d * d, p * q, s);
    assert (d * (x * y)) * (d * (x * y)) == (d * d) * s;
    assert s == (x * x) * (y * y);
    assert (p * (y * y)) * (q * (x * x)) == (p * q) * ((x * x) * (y * y));
  }

  lemma SumSquare(u: real, v: real)
    ensures 4.0 * (u * v) <= (u + v) * (u + v)
  {
    SquareNonNegative(u - v);
    assert (u + v) * (u + v) - 4.0 * (u * v) == (u - v) * (u - v);
  }

  lemma ExtendProduct(d: real, p: real, q: real, x: real, y: real)
    requires d * d <= p * q && 2.0 * (d * (x * y)) <= p * (y * y) + q * (x * x)
    ensures (d + x * y) * (d + x * y) <= (p + x * x) * (q + y * y)
  {
    assert (d + x * y) * (d + x * y) == d * d + 2.0 * (d * (x * y)) + (x * y) * (x * y);
    assert (p + x * x) * (q + y * y) == p * q + (p * (y * y) + q * (x * x)) + (x * x) * (y * y);
    assert (x * y) * (x * y) == (x * x) * (y * y);
  }

  /** Cauchy-Schwarz: dot squared is at most the product of the squared norms. */
  lemma {:induction false} CauchySchwarz(a: Vector, b: Vector)
    requires |a| == |b|
    ensures Dot(a, b) * Dot(a, b) <= Dot(a, a) * Dot(b, b)
  {
    if a != [] {
      var d, p, q := Dot(Front(a), Front(b)), Dot(Front(a), Front(a)), Dot(Front(b), Front(b));
      CauchySchwarz(Front(a), Front(b));
      NormsPositive(Front(a));
      NormsPositive(Front(b));
      CrossTerm(d, p, q, Last(a), Last(b));
      ExtendProduct(d, p, q, Last(a), Last(b));
    }
  }

  lemma QuotientAtMostOne(d: real, r: real)
    requires r > 0.0 && d <= r
    ensures d / r <= 1.0
  {
    var x := d / r;
    if x > 1.0 {
      ProductPositive(x - 1.0, r);
    }
  }

  lemma QuotientSign(d: real, r: real)
    requires r > 0.0
    ensures (0.0 - d) / r == 0.0 - d / r
    ensures d / r < 0.0 <==> d < 0.0
  {
    var x := d / r;
    assert x * r == d;
    if x > 0.0 {
      ProductPositive(x, r);
    } else if x < 0.0 {
      ProductPositive(0.0 - x, r);
    }
    var y := (0.0 - d) / r;
    assert y * r == 0.0 - d;
    assert (x + y) * r == 0.0;
    if x + y > 0.0 {
      ProductPositive(x + y, r);
    } else if x + y < 0.0 {
      ProductPositive(0.0 - (x + y), r);
    }
  }

  lemma QuotientRange(d: real, r: real)
    requires r > 0.0 && d * d <= r * r
    ensures -1.0 <= d / r <= 1.0
    ensures d / r < 0.0 <==> d < 0.0
  {
    SquareOrder(r, d);
    assert (0.0 - d) * (0.0 - d) == d * d;
    SquareOrder(r, 0.0 - d);
    QuotientAtMostOne(d, r);
    QuotientAtMostOne(0.0 - d, r);
    QuotientSign(d, r);
  }

  lemma CosineRange(d: real, s: real, t: real)
    requires s > 0.0 && t > 0.0 && d * d <= (s * s) * (t * t)
    ensures -1.0 <= Cosine(d, s, t) <= 1.0 && (Cosine(d, s, t) < 0.0 <==> d < 0.0)
  {
    ProductPositive(s, t);
    assert (s * t) * (s * t) == (s * s) * (t * t);
    QuotientRange(d, s * t);
  }

  lemma ZeroNormZeroDot(d: real, p: real, q: real)
    requires d * d <= p * q && (p == 0.0 || q == 0.0)
    ensures d == 0.0
  {
    assert p * q == 0.0;
    SquareOrder(0.0, d);
    assert (0.0 - d) * (0.0 - d) == d * d;
    SquareOrder(0.0, 0.0 - d);
  }

  /** Similarity lies in [-1, 1], and is negative exactly when the vectors point apart: the documented
      range [0, 1] holds exactly when the dot product is not negative. */
  lemma SimilarityRange(root: real -> real, a: Vector, b: Vector)
    requires IsRoot(root)
    ensures -1.0 <= Similarity(root, a, b) <= 1.0
    ensures Similarity(root, a, b) < 0.0 <==> |a| == |b| && Dot(a, b) < 0.0
  {
    if |a| == |b| && |a| > 0 {
      NormsPositive(a);
      NormsPositive(b);
      CauchySchwarz(a, b);
      if Dot(a, a) == 0.0 || Dot(b, b) == 0.0 {
        ZeroNormZeroDot(Dot(a, b), Dot(a, a), Dot(b, b));
      } else {
        CosineRange(Dot(a, b), root(Dot(a, a)), root(Dot(b, b)));
      }
    }
  }

  lemma {:induction false} WordVectorsNeverApart(a: Vector, b: Vector)
    requires |a| == |b| && forall i :: 0 <= i < |a| ==> a[i] >= 0.0 && b[i] >= 0.0
    ensures Dot(a, b) >= 0.0
  {
    if a != [] {
      WordVectorsNeverApart(Front(a), Front(b));
      assert a[|a| - 1] >= 0.0 && b[|b| - 1] >= 0.0;
      ProductMonotone(0.0, Last(a), Last(b));
    }
  }

  // ----- the backend

  datatype Entry = Entry(vec: Vector, resp: string, expiresAt: Option<int>)

  predicate Expired(e: Entry, now: int) {
    e.expiresAt.Some? && now > e.expiresAt.value
  }

  /** An entry that a lookup may return. A score of 0 or less never counts, whatever the threshold. */
  ghost predicate Qualifies(root: real -> real, e: Entry, vec: Vector, threshold: real, now: int)
    requires IsRoot(root)
  {
    var s := Similarity(root, vec, e.vec);
    !Expired(e, now) && s >= threshold && s > 0.0
  }

  /** With a positive threshold "qualifies" is what the documentation says, an unexpired entry at or
      above the threshold; with any other it is not, on some entry. */
  lemma PositiveThresholdExact(root: real -> real, threshold: real)
    requires IsRoot(root)
    ensures threshold > 0.0 <==>
            forall e: Entry, vec: Vector, now: int ::
              Qualifies(root, e, vec, threshold, now) <==> !Expired(e, now) && Similarity(root, vec, e.vec) >= threshold
  {
    if threshold <= 0.0 {
      var e := Entry([], "", None);
      assert Similarity(root, [], e.vec) == 0.0 && !Qualifies(root, e, [], threshold, 0);
    }
  }

  class Backend {
    const maxSize: int
    var entries: seq<Entry>

    constructor (maxSize: int)
      ensures this.maxSize == maxSize && entries == []
    {
      this.maxSize, entries := maxSize, [];
    }

    /** The first unexpired entry of maximal similarity at or above the threshold; a miss exactly when
        no entry qualifies. */
    method Find(root: real -> real, vec: Vector, threshold: real, now: int) returns (r: Option<string>)
      requires IsRoot(root)
      ensures r.None? <==> forall i :: 0 <= i < |entries| ==> !Qualifies(root, entries[i], vec, threshold, now)
      ensures r.Some? ==> exists i :: 0 <= i < |entries| && IsBest(root, entries, vec, threshold, now, i) && entries[i].resp == r.value
    {
      var best: Option<string> := None;
      var bestScore := 0.0;
      ghost var at := 0;
      for i := 0 to |entries|
        invariant best.None? ==> bestScore == 0.0 && forall j :: 0 <= j < i ==> !Qualifies(root, entries[j], vec, threshold, now)
        invariant best.Some? ==> 0 <= at < i && best.value == entries[at].resp && IsBest(root, entries[..i], vec, threshold, now, at)
        invariant best.Some? ==> bestScore == Similarity(root, vec, entries[at].vec)
      {
        var e := entries[i];
        if Expired(e, now) {
          continue;
        }
        var score := CosineSimilarity(root, vec, e.vec);
        if score >= threshold && score > bestScore {
          bestScore, best, at := score, Some(e.resp), i;
        }
      }
      assert entries[..|entries|] == entries;
      r := best;
    }

    method Evict(now: int)
      modifies this
      ensures entries == Evicted(old(entries), now)
    {
      var i := 0;
      while i < |entries|
        invariant 0 <= i <= |entries| && entries == old(entries)
        invariant forall j :: 0 <= j < i ==> !Expired(entries[j], now)
      {
        if Expired(entries[i], now) {
          FirstExpiredIs(entries, now, i);
          entries := entries[..i] + entries[i + 1..];
          return;
        }
        i := i + 1;
      }
      FirstExpiredIs(entries, now, i);
      if |entries| > 0 {
        entries := entries[1..];
      }
    }

    method Store(vec: Vector, resp: string, ttl: int, now: int)
      modifies this
      ensures entries == Stored(maxSize, old(entries), Entry(vec, resp, if ttl > 0 then Some(now + ttl) else None), now)
    {
      if maxSize > 0 && |entries| >= maxSize {
        Evict(now);
      }
      var exp := if ttl > 0 then Some(now + ttl) else None;
      entries := entries + [Entry(vec, resp, exp)];
    }
  }

  /** Entry i qualifies, no entry that qualifies is more similar, and no earlier one is as similar. */
  ghost predicate IsBest(root: real -> real, es: seq<Entry>, vec: Vector, threshold: real, now: int, i: nat)
    requires IsRoot(root) && i < |es|
  {
    && Qualifies(root, es[i], vec, threshold, now)
    && (forall j :: 0 <= j < |es| && Qualifies(root, es[j], vec, threshold, now) ==>
          Similarity(root, vec, es[j].vec) <= Similarity(root, vec, es[i].vec))
    && (forall j :: 0 <= j < i && Qualifies(root, es[j], vec, threshold, now) ==>
          Similarity(root, vec, es[j].vec) < Similarity(root, vec, es[i].vec))
  }

  /** Index of the first expired entry, or |es|. */
  function FirstExpired(es: seq<Entry>, now: int): (i: nat)
    ensures i <= |es|
    ensures i < |es| ==> Expired(es[i], now)
    ensures forall j :: 0 <= j < i ==> !Expired(es[j], now)
    decreases |es|
  {
    if es == [] || Expired(es[0], now) then 0 else 1 + FirstExpired(es[1..], now)
  }

  lemma FirstExpiredIs(es: seq<Entry>, now: int, i: nat)
    requires i <= |es| && (i < |es| ==> Expired(es[i], now)) && forall j :: 0 <= j < i ==> !Expired(es[j], now)
    ensures FirstExpired(es, now) == i
  {
  }

  /** Make room: drop the first expired entry, or else the oldest. */
  function Evicted(es: seq<Entry>, now: int): seq<Entry> {
    var i := FirstExpired(es, now);
    if i < |es| then RemoveAt(es, i) else if es != [] then es[1..] else es
  }

  function Stored(maxSize: int, es: seq<Entry>, e: Entry, now: int): seq<Entry> {
    (if maxSize > 0 && |es| >= maxSize then Evicted(es, now) else es) + [e]
  }

  // ----- runs

  datatype Put = Put(e: Entry, at: int)

  function After(maxSize: int, run: seq<Put>): seq<Entry> {
    if run == [] then [] else Stored(maxSize, After(maxSize, Front(run)), Last(run).e, Last(run).at)
  }

  /** A bounded cache never holds more than maxSize entries. */
  lemma {:induction false} SizeBounded(maxSize: int, run: seq<Put>)
    requires maxSize > 0
    ensures |After(maxSize, run)| <= maxSize
  {
    if run != [] {
      SizeBounded(maxSize, Front(run));
    }
  }

  function All(run: seq<Put>): seq<Entry> {
    if run == [] then [] else All(Front(run)) + [Last(run).e]
  }

  ghost predicate NeverExpire(run: seq<Put>) {
    forall i :: 0 <= i < |run| ==> run[i].e.expiresAt.None?
  }

  lemma {:induction false} AllNeverExpire(run: seq<Put>)
    requires NeverExpire(run)
    ensures |All(run)| == |run| && forall i :: 0 <= i < |run| ==> All(run)[i].expiresAt.None?
  {
    if run != [] {
      AllNeverExpire(Front(run));
      assert run[|run| - 1].e.expiresAt.None?;
    }
  }

  lemma EvictOldest(es: seq<Entry>, now: int)
    requires es != [] && forall i :: 0 <= i < |es| ==> es[i].expiresAt.None?
    ensures Evicted(es, now) == es[1..]
  {
    FirstExpiredIs(es, now, |es|);
  }

  /** Without expiry the cache holds exactly the last maxSize entries, in order. */
  lemma {:induction false} KeepsTheNewest(maxSize: int, run: seq<Put>)
    requires maxSize > 0 && NeverExpire(run)
    ensures After(maxSize, run) == TakeLast(All(run), maxSize)
  {
    if run != [] {
      var es, e := After(maxSize, Front(run)), Last(run).e;
      KeepsTheNewest(maxSize, Front(run));
      AllNeverExpire(Front(run));
      if |es| >= maxSize {
        EvictOldest(es, Last(run).at);
      }
      TakeLastSnoc(All(Front(run)), e, maxSize - 1);
      TakeLastShorter(All(Front(run)), maxSize);
    }
  }

  lemma TakeLastShorter(s: seq<Entry>, n: nat)
    requires n > 0
    ensures TakeLast(s, n - 1) == if |s| >= n then TakeLast(s, n)[1..] else s
  {
  }
}
