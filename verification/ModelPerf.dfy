/** Model statistics: exponential moving averages of latency and cost, and a success rate over a
    fixed ring of recent outcomes. Rounding of floating-point numbers is not modelled. */
module ModelPerf {
  import opened Seqs

  const WINDOW: nat := 100

  datatype Sample = Sample(p50: real, p95: real, cost: real, successRate: real)
  datatype Stats = Stats(samples: nat, p50: real, p95: real, cost: real, successRate: real)

  // ----- the specification: statistics of a history of samples

  function Blend(old_: real, x: real): real {
    0.1 * x + 0.9 * old_
  }

  function Ema(xs: seq<real>): real {
    if xs == [] then 0.0 else if |xs| == 1 then xs[0] else Blend(Ema(Front(xs)), Last(xs))
  }

  function P50s(h: seq<Sample>): (r: seq<real>)
    ensures |r| == |h|
  {
    seq(|h|, i requires 0 <= i < |h| => h[i].p50)
  }

  function P95s(h: seq<Sample>): (r: seq<real>)
    ensures |r| == |h|
  {
    seq(|h|, i requires 0 <= i < |h| => h[i].p95)
  }

  function Costs(h: seq<Sample>): (r: seq<real>)
    ensures |r| == |h|
  {
    seq(|h|, i requires 0 <= i < |h| => h[i].cost)
  }

  function Outcomes(h: seq<Sample>): (r: seq<bool>)
    ensures |r| == |h|
  {
    seq(|h|, i requires 0 <= i < |h| => h[i].successRate >= 1.0)
  }

  function Successes(bs: seq<bool>): (n: nat)
    ensures n <= |bs|
  {
    if bs == [] then 0 else Successes(Front(bs)) + if Last(bs) then 1 else 0
  }

  function Ratio(n: nat, d: nat): real {
    if d == 0 then 0.0 else n as real / d as real
  }

  /** The fraction of successes among the most recent outcomes. */
  function Rate(bs: seq<bool>): real {
    var w := TakeLast(bs, WINDOW);
    Ratio(Successes(w), |w|)
  }

  function StatsOf(h: seq<Sample>): Stats {
    Stats(|h|, Ema(P50s(h)), Ema(P95s(h)), Ema(Costs(h)), Rate(Outcomes(h)))
  }

  // ----- moving averages

  lemma BlendBetween(a: real, x: real, lo: real, hi: real)
    requires lo <= a <= hi && lo <= x <= hi
    ensures lo <= Blend(a, x) <= hi
  {
  }

  /** An average never leaves the range of its observations. */
  lemma {:induction false} EmaBetween(xs: seq<real>, lo: real, hi: real)
    requires xs != [] && forall i :: 0 <= i < |xs| ==> lo <= xs[i] <= hi
    ensures lo <= Ema(xs) <= hi
  {
    assert lo <= xs[|xs| - 1] <= hi;
    if |xs| > 1 {
      EmaBetween(Front(xs), lo, hi);
      BlendBetween(Ema(Front(xs)), Last(xs), lo, hi);
    }
  }

  function Decay(gap: real, n: nat): real {
    if n == 0 then gap else 0.9 * Decay(gap, n - 1)
  }

  /** Under a constant load the average closes in on it, a tenth of the gap at every sample. */
  lemma {:induction false} EmaConverges(xs: seq<real>, x: real, n: nat)
    requires xs != []
    ensures Ema(xs + seq(n, _ => x)) - x == Decay(Ema(xs) - x, n)
  {
    var ys := xs + seq(n, _ => x);
    if n == 0 {
      assert ys == xs;
    } else {
      EmaConverges(xs, x, n - 1);
      assert Front(ys) == xs + seq(n - 1, _ => x) && Last(ys) == x;
    }
  }

  // ----- the ring

  lemma {:induction false} SuccessesConcat(a: seq<bool>, b: seq<bool>)
    ensures Successes(a + b) == Successes(a) + Successes(b)
  {
    if b == [] {
      assert a + b == a;
    } else {
      SuccessesConcat(a, Front(b));
      assert Front(a + b) == a + Front(b);
    }
  }

  lemma {:induction false} AllSucceeded(bs: seq<bool>)
    ensures Successes(bs) == |bs| <==> forall i :: 0 <= i < |bs| ==> bs[i]
  {
    if bs != [] {
      AllSucceeded(Front(bs));
      assert Last(bs) == bs[|bs| - 1];
    }
  }

  /** Where the next outcome goes. */
  function Slot(n: nat): (k: nat)
    ensures k < WINDOW
  {
    n % WINDOW
  }

  lemma SlotNext(n: nat)
    ensures Slot(n + 1) == if Slot(n) + 1 == WINDOW then 0 else Slot(n) + 1
    ensures n < WINDOW ==> Slot(n) == n
  {
  }

  /** The ring, read from the oldest slot on, is the suffix of the outcomes it has room for. */
  ghost predicate Holds(ring: seq<bool>, bs: seq<bool>)
    requires |ring| == WINDOW
  {
    if |bs| < WINDOW then ring[..|bs|] == bs
    else ring[Slot(|bs|)..] + ring[..Slot(|bs|)] == TakeLast(bs, WINDOW)
  }

  lemma Rotate(ring: seq<bool>, k: nat, x: bool)
    requires k < |ring| == WINDOW
    ensures var next := if k + 1 == WINDOW then 0 else k + 1;
            var was, new_ := ring[k..] + ring[..k], ring[k := x];
            new_[next..] + new_[..next] == was[1..] + [x]
  {
  }

  lemma SlideWindow(bs: seq<bool>, x: bool)
    requires |bs| >= WINDOW
    ensures TakeLast(bs + [x], WINDOW) == TakeLast(bs, WINDOW)[1..] + [x]
  {
  }

  lemma RingKept(ring: seq<bool>, bs: seq<bool>, x: bool)
    requires |ring| == WINDOW && Holds(ring, bs)
    ensures Holds(ring[Slot(|bs|) := x], bs + [x])
  {
    SlotNext(|bs|);
    var after := ring[Slot(|bs|) := x];
    if |bs| < WINDOW {
      assert after[..|bs| + 1] == bs + [x];
      if |bs| + 1 == WINDOW {
        assert after[0..] + after[..0] == after[..WINDOW];
      }
    } else {
      Rotate(ring, Slot(|bs|), x);
      SlideWindow(bs, x);
    }
  }

  lemma RingRate(ring: seq<bool>, bs: seq<bool>)
    requires |ring| == WINDOW && Holds(ring, bs)
    ensures Successes(ring[..|TakeLast(bs, WINDOW)|]) == Successes(TakeLast(bs, WINDOW))
  {
    if |bs| >= WINDOW {
      var k := Slot(|bs|);
      SuccessesConcat(ring[k..], ring[..k]);
      SuccessesConcat(ring[..k], ring[k..]);
      assert ring[..k] + ring[k..] == ring[..WINDOW];
    }
  }

  // ----- one entry

  class Entry {
    var stats: Stats
    const recentResults: array<bool>
    var resultHead: nat
    var resultCount: nat

    /** The entry holds the statistics of history h. */
    ghost predicate Represents(h: seq<Sample>)
      reads this, recentResults
    {
      && recentResults.Length == WINDOW
      && stats == StatsOf(h)
      && resultHead == |h| && resultCount == |TakeLast(h, WINDOW)|
      && Holds(recentResults[..], Outcomes(h))
    }

    constructor ()
      ensures Represents([]) && fresh(recentResults)
    {
      stats := Stats(0, 0.0, 0.0, 0.0, 0.0);
      recentResults := new bool[WINDOW](_ => false);
      resultHead, resultCount := 0, 0;
    }

    method PushResult(x: bool, ghost bs: seq<bool>)
      requires recentResults.Length == WINDOW && resultHead == |bs| && resultCount == |TakeLast(bs, WINDOW)|
      requires Holds(recentResults[..], bs)
      modifies this`resultHead, this`resultCount, recentResults
      ensures resultHead == |bs| + 1 && resultCount == |TakeLast(bs + [x], WINDOW)|
      ensures Holds(recentResults[..], bs + [x])
    {
      ghost var ring := recentResults[..];
      RingKept(ring, bs, x);
      recentResults[resultHead % WINDOW] := x;
      assert recentResults[..] == ring[Slot(|bs|) := x];
      resultHead := resultHead + 1;
      if resultCount < WINDOW {
        resultCount := resultCount + 1;
      }
    }

    method CountSuccesses() returns (n: nat)
      requires resultCount <= recentResults.Length
      ensures n == Successes(recentResults[..resultCount])
    {
      n := 0;
      for i := 0 to resultCount
        invariant n == Successes(recentResults[..i])
      {
        assert Front(recentResults[..i + 1]) == recentResults[..i];
        if recentResults[i] {
          n := n + 1;
        }
      }
    }

    method Upsert(s: Sample, ghost h: seq<Sample>)
      requires Represents(h)
      modifies this, recentResults
      ensures Represents(h + [s])
    {
      SnocStats(h, s);
      var e := stats;
      var count := e.samples + 1;
      if count == 1 {
        e := Stats(count, s.p50, s.p95, s.cost, e.successRate);
      } else {
        e := Stats(count, Blend(e.p50, s.p50), Blend(e.p95, s.p95), Blend(e.cost, s.cost), e.successRate);
      }
      PushResult(s.successRate >= 1.0, Outcomes(h));
      var n := CountSuccesses();
      RingRate(recentResults[..], Outcomes(h + [s]));
      assert recentResults[..resultCount] == recentResults[..][..resultCount];
      stats := e.(successRate := Ratio(n, resultCount));
    }
  }

  lemma SnocStats(h: seq<Sample>, s: Sample)
    ensures Outcomes(h + [s]) == Outcomes(h) + [s.successRate >= 1.0]
    ensures Ema(P50s(h + [s])) == if h == [] then s.p50 else Blend(Ema(P50s(h)), s.p50)
    ensures Ema(P95s(h + [s])) == if h == [] then s.p95 else Blend(Ema(P95s(h)), s.p95)
    ensures Ema(Costs(h + [s])) == if h == [] then s.cost else Blend(Ema(Costs(h)), s.cost)
  {
    assert Front(P50s(h + [s])) == P50s(h);
    assert Front(P95s(h + [s])) == P95s(h);
    assert Front(Costs(h + [s])) == Costs(h);
  }

  // ----- what the statistics say

  /** How many of these samples succeeded. */
  function Good(h: seq<Sample>): nat {
    if h == [] then 0 else Good(Front(h)) + if Last(h).successRate >= 1.0 then 1 else 0
  }

  lemma {:induction false} GoodIsSuccesses(h: seq<Sample>)
    ensures Good(h) == Successes(Outcomes(h))
  {
    if h != [] {
      GoodIsSuccesses(Front(h));
      assert Front(Outcomes(h)) == Outcomes(Front(h));
    }
  }

  lemma RecentOutcomes(h: seq<Sample>)
    ensures TakeLast(Outcomes(h), WINDOW) == Outcomes(TakeLast(h, WINDOW))
  {
  }

  /** Without samples everything is zero. */
  lemma StatsOfNothing()
    ensures StatsOf([]) == Stats(0, 0.0, 0.0, 0.0, 0.0)
  {
  }

  /** Each average is about its own measure: both latencies and the cost stay in the range of theirs. */
  lemma StatsBetween(h: seq<Sample>, lo: Sample, hi: Sample)
    requires h != []
    requires forall i :: 0 <= i < |h| ==>
               lo.p50 <= h[i].p50 <= hi.p50 && lo.p95 <= h[i].p95 <= hi.p95 && lo.cost <= h[i].cost <= hi.cost
    ensures var r := StatsOf(h);
            && r.samples == |h|
            && lo.p50 <= r.p50 <= hi.p50 && lo.p95 <= r.p95 <= hi.p95 && lo.cost <= r.cost <= hi.cost
  {
    EmaBetween(P50s(h), lo.p50, hi.p50);
    EmaBetween(P95s(h), lo.p95, hi.p95);
    EmaBetween(Costs(h), lo.cost, hi.cost);
  }

  lemma RatioTimes(n: nat, d: nat)
    requires d > 0
    ensures Ratio(n, d) * d as real == n as real
  {
  }

  lemma RecentSuccesses(h: seq<Sample>)
    ensures Successes(TakeLast(Outcomes(h), WINDOW)) == Good(TakeLast(h, WINDOW))
  {
    RecentOutcomes(h);
    GoodIsSuccesses(TakeLast(h, WINDOW));
  }

  /** The success rate is the share of good samples among the last hundred. */
  lemma RateIsShare(h: seq<Sample>, recent: seq<Sample>)
    requires h != [] && |recent| == Min(|h|, 100) && recent == h[|h| - |recent|..]
    ensures StatsOf(h).successRate == Ratio(Good(recent), |recent|)
  {
    assert recent == TakeLast(h, WINDOW);
    RecentSuccesses(h);
  }

  // ----- what the rate says

  /** Outcomes older than the window leave no trace. */
  lemma RateForgets(older: seq<bool>, recent: seq<bool>)
    requires |recent| >= WINDOW
    ensures Rate(older + recent) == Rate(recent)
  {
    assert TakeLast(older + recent, WINDOW) == TakeLast(recent, WINDOW);
  }

  lemma RatioRange(n: nat, d: nat)
    requires n <= d && d > 0
    ensures 0.0 <= Ratio(n, d) <= 1.0
    ensures Ratio(n, d) == 1.0 <==> n == d
  {
    var q := Ratio(n, d);
    assert q * (d as real) == n as real;
  }

  /** The rate is a fraction, and it is one exactly when every outcome in the window succeeded. */
  lemma RateMeansSuccess(bs: seq<bool>)
    requires bs != []
    ensures 0.0 <= Rate(bs) <= 1.0
    ensures Rate(bs) == 1.0 <==> forall i :: 0 <= i < |bs| && |bs| - WINDOW <= i ==> bs[i]
  {
    var w := TakeLast(bs, WINDOW);
    AllSucceeded(w);
    RatioRange(Successes(w), |w|);
    var k := |bs| - |w|;
    assert forall i :: 0 <= i < |w| ==> w[i] == bs[k + i];
    assert forall i :: k <= i < |bs| ==> bs[i] == w[i - k];
  }

  // ----- keys

  function Key(model: string, intent: string): string {
    model + ":" + intent
  }

  /** Two model and intent pairs share an entry, unless neither name holds a colon. */
  lemma KeyUnambiguousIff(model: string, intent: string)
    ensures (forall m: string, i: string :: Key(m, i) == Key(model, intent) ==> m == model && i == intent)
            <==> ':' !in model && ':' !in intent
  {
    var k := Key(model, intent);
    if ':' in model {
      var c :| 0 <= c < |model| && model[c] == ':';
      assert Key(model[..c], model[c + 1..] + ":" + intent) == k;
    } else if ':' in intent {
      var c :| 0 <= c < |intent| && intent[c] == ':';
      assert Key(model + ":" + intent[..c], intent[c + 1..]) == k;
    } else {
      forall m: string, i: string | Key(m, i) == k ensures m == model && i == intent {
        OneColon(model, intent, m, i);
      }
    }
  }

  lemma OneColon(model: string, intent: string, m: string, i: string)
    requires ':' !in model && ':' !in intent && Key(m, i) == Key(model, intent)
    ensures m == model && i == intent
  {
    var k := Key(model, intent);
    assert k[|m|] == ':' && k[|model|] == ':';
    assert forall j :: |model| < j < |k| ==> k[j] == intent[j - |model| - 1];
    assert forall j :: 0 <= j < |model| ==> k[j] == model[j];
    assert |m| == |model|;
    assert m == k[..|m|] && i == k[|m| + 1..] && model == k[..|m|] && intent == k[|m| + 1..];
  }

  // ----- the store

  function HistoryAt<K>(histories: map<K, seq<Sample>>, k: K): seq<Sample> {
    if k in histories then histories[k] else []
  }

  lemma UpdateTwice<K, V>(m: map<K, V>, k: K, v: V, w: V)
    ensures m[k := v][k := w] == m[k := w]
  {
  }

  /** The entries, by key. */
  class Memory<K(==)> {
    var stats: map<K, Entry>
    /** Every sample ever recorded, by key. */
    ghost var histories: map<K, seq<Sample>>

    ghost function Objects(): set<object>
      reads this
    {
      (set k | k in stats :: stats[k]) + (set k | k in stats :: stats[k].recentResults)
    }

    ghost predicate Apart()
      reads this
    {
      forall k, l :: k in stats && l in stats && k != l ==> stats[k] != stats[l] && stats[k].recentResults != stats[l].recentResults
    }

    ghost predicate Valid()
      reads this, Objects()
    {
      stats.Keys == histories.Keys && Apart() && forall k :: k in stats ==> Sound(k)
    }

    ghost predicate Sound(k: K)
      requires k in stats && k in histories
      reads this, Objects()
    {
      stats[k].Represents(histories[k])
    }

    constructor ()
      ensures Valid() && histories == map[]
    {
      stats, histories := map[], map[];
    }

    method Get(k: K) returns (r: Stats)
      requires Valid()
      ensures r == StatsOf(HistoryAt(histories, k))
    {
      if k in stats {
        return stats[k].stats;
      }
      return Stats(0, 0.0, 0.0, 0.0, 0.0);
    }

    method Create(k: K)
      requires Valid() && k !in stats
      modifies this
      ensures Valid() && k in stats && histories == old(histories)[k := []]
      ensures fresh(stats[k]) && fresh(stats[k].recentResults)
    {
      var e := new Entry();
      stats := stats[k := e];
      histories := histories[k := []];
    }

    method Update(k: K, s: Sample)
      requires Valid() && k in stats
      modifies this`histories, stats[k], stats[k].recentResults
      ensures Valid() && histories == old(histories)[k := old(histories)[k] + [s]]
    {
      var e, h := stats[k], histories[k];
      e.Upsert(s, h);
      histories := histories[k := h + [s]];
    }

    method Upsert(k: K, s: Sample)
      requires Valid()
      modifies this, Objects()
      ensures Valid()
      ensures histories == old(histories)[k := HistoryAt(old(histories), k) + [s]]
    {
      if k in stats {
        Update(k, s);
      } else {
        UpdateTwice(histories, k, [], [] + [s]);
        Create(k);
        Update(k, s);
      }
    }
  }

  /** The statistics of a model and intent: those of every sample recorded under their key. */
  method GetStats(store: Memory<string>, model: string, intent: string) returns (r: Stats)
    requires store.Valid()
    ensures r == StatsOf(HistoryAt(store.histories, Key(model, intent)))
  {
    r := store.Get(Key(model, intent));
  }

  method UpsertStats(store: Memory<string>, model: string, intent: string, s: Sample)
    requires store.Valid()
    modifies store, store.Objects()
    ensures store.Valid()
    ensures var k := Key(model, intent);
            store.histories == old(store.histories)[k := HistoryAt(old(store.histories), k) + [s]]
  {
    store.Upsert(Key(model, intent), s);
  }

  // ----- whole runs

  datatype Report = Report(model: string, intent: string, s: Sample)

  function HistoriesAfter(run: seq<Report>): map<string, seq<Sample>> {
    if run == [] then map[] else
      var m, k := HistoriesAfter(Front(run)), Key(Last(run).model, Last(run).intent);
      m[k := HistoryAt(m, k) + [Last(run).s]]
  }

  /** Every sample reported for a model and an intent, in order. */
  function SamplesOf(run: seq<Report>, model: string, intent: string): seq<Sample> {
    if run == [] then []
    else if Last(run).model == model && Last(run).intent == intent then SamplesOf(Front(run), model, intent) + [Last(run).s]
    else SamplesOf(Front(run), model, intent)
  }

  predicate ColonFree(s: string) {
    ':' !in s
  }

  predicate PlainReports(run: seq<Report>) {
    forall i :: 0 <= i < |run| ==> ColonFree(run[i].model)
  }

  lemma KeyInjective(a: string, x: string, b: string, y: string)
    requires ColonFree(a) && ColonFree(b) && Key(a, x) == Key(b, y)
    ensures a == b && x == y
  {
    var s, t := Key(a, x), Key(b, y);
    assert s[|a|] == ':' && t[|b|] == ':' && s[..|a|] == a && t[..|b|] == b;
    assert s[|a| + 1..] == x && t[|b| + 1..] == y;
  }

  /** After any run, with no colon in the names of models, the statistics of a model and an intent are those of
      every sample reported for them and of no other. */
  lemma {:induction false} HistoryIsReports(run: seq<Report>, model: string, intent: string)
    requires PlainReports(run) && ColonFree(model)
    ensures HistoryAt(HistoriesAfter(run), Key(model, intent)) == SamplesOf(run, model, intent)
  {
    if run != [] {
      assert run[|run| - 1] == Last(run);
      HistoryIsReports(Front(run), model, intent);
      if Key(Last(run).model, Last(run).intent) == Key(model, intent) {
        KeyInjective(Last(run).model, Last(run).intent, model, intent);
      }
    }
  }
}
