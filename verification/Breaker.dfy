/** The circuit breaker of one model. `View` is its state as a value; `Breaker` changes it in place.
    Time is an integer that callers never turn back; the success rate is real, not floating point. */
module Breaker {
  import opened Seqs

  datatype Mode = Closed | Open | HalfOpen

  datatype Policy = Policy(threshold: real, window: int, minRequests: int, halfOpenAfter: int, probeCount: int)

  datatype View = View(
    mode: Mode, windowStart: int, failures: nat, total: nat, openedAt: int, probesSent: nat, probesPassed: nat)

  function New(now: int): View {
    View(Closed, now, 0, 0, 0, 0, 0)
  }

  /** A half-open breaker lets at most probeCount requests pass. */
  function Probe(p: Policy, b: View): (View, bool) {
    if b.probesSent < p.probeCount then (b.(probesSent := b.probesSent + 1), true) else (b, false)
  }

  function Allow(p: Policy, b: View, now: int): (View, bool) {
    match b.mode
    case Closed =>
      (if now - b.windowStart > p.window then b.(failures := 0, total := 0, windowStart := now) else b, true)
    case Open =>
      if now - b.openedAt < p.halfOpenAfter then (b, false)
      else Probe(p, b.(mode := HalfOpen, probesSent := 0, probesPassed := 0))
    case HalfOpen => Probe(p, b)
  }

  function Succeed(p: Policy, b: View, now: int): View {
    match b.mode
    case Closed => b.(total := b.total + 1)
    case Open => b
    case HalfOpen =>
      var c := b.(probesPassed := b.probesPassed + 1);
      if c.probesPassed >= p.probeCount then c.(mode := Closed, failures := 0, total := 0, windowStart := now) else c
  }

  /** The success rate of these counts is below the threshold. */
  predicate Unhealthy(p: Policy, failures: nat, total: nat)
    requires failures <= total && total > 0
  {
    (total - failures) as real / total as real < p.threshold
  }

  function Fail(p: Policy, b: View, now: int): View
    requires b.failures <= b.total
  {
    match b.mode
    case Closed =>
      var c := b.(failures := b.failures + 1, total := b.total + 1);
      if c.total >= p.minRequests && Unhealthy(p, c.failures, c.total) then c.(mode := Open, openedAt := now) else c
    case Open => b
    case HalfOpen => b.(mode := Open, openedAt := now)
  }

  /** State seeded from a shared store: a breaker seeded open starts its cool-down now. */
  function Seed(b: View, m: Mode, now: int): View {
    if m == Open then b.(mode := m, openedAt := now) else b.(mode := m)
  }

  class Breaker {
    const policy: Policy
    var mode: Mode
    var windowStart: int
    var failures: nat
    var total: nat
    var openedAt: int
    var probesSent: nat
    var probesPassed: nat

    function Now(): View
      reads this
    {
      View(mode, windowStart, failures, total, openedAt, probesSent, probesPassed)
    }

    constructor (p: Policy, now: int)
      ensures policy == p && Now() == New(now)
    {
      policy := p;
      mode, windowStart := Closed, now;
      failures, total, openedAt, probesSent, probesPassed := 0, 0, 0, 0, 0;
    }

    method TryAllow(now: int) returns (ok: bool)
      modifies this
      ensures (Now(), ok) == Allow(policy, old(Now()), now)
    {
      if mode == Closed {
        if now - windowStart > policy.window {
          failures, total := 0, 0;
          windowStart := now;
        }
        return true;
      }
      if mode == Open {
        if now - openedAt < policy.halfOpenAfter {
          return false;
        }
        mode := HalfOpen;
        probesSent, probesPassed := 0, 0;
      }
      if probesSent < policy.probeCount {
        probesSent := probesSent + 1;
        return true;
      }
      return false;
    }

    method RecordSuccess(now: int)
      modifies this
      ensures Now() == Succeed(policy, old(Now()), now)
    {
      match mode
      case Closed => total := total + 1;
      case Open =>
      case HalfOpen =>
        probesPassed := probesPassed + 1;
        if probesPassed >= policy.probeCount {
          mode := Closed;
          failures, total := 0, 0;
          windowStart := now;
        }
    }

    method RecordFailure(now: int)
      requires failures <= total
      modifies this
      ensures Now() == Fail(policy, old(Now()), now)
    {
      match mode
      case Closed =>
        failures := failures + 1;
        total := total + 1;
        if total >= policy.minRequests {
          var rate := (total - failures) as real / total as real;
          if rate < policy.threshold {
            mode := Open;
            openedAt := now;
          }
        }
      case Open =>
      case HalfOpen =>
        mode := Open;
        openedAt := now;
    }

    method SetState(m: Mode, now: int)
      modifies this
      ensures Now() == Seed(old(Now()), m, now)
    {
      mode := m;
      if m == Open {
        openedAt := now;
      }
    }
  }

  // ----- runs

  datatype Action = Ask(at: int) | Success(at: int) | Failure(at: int)

  function Step(p: Policy, b: View, a: Action): (r: View)
    requires b.failures <= b.total
    ensures r.failures <= r.total
  {
    match a
    case Ask(at) => Allow(p, b, at).0
    case Success(at) => Succeed(p, b, at)
    case Failure(at) => Fail(p, b, at)
  }

  /** The breaker after a run that starts in state b. */
  function After(p: Policy, b: View, run: seq<Action>): (r: View)
    requires b.failures <= b.total
    ensures r.failures <= r.total
  {
    if run == [] then b else Step(p, After(p, b, Front(run)), Last(run))
  }

  /** The clock does not go back. */
  predicate Ordered(run: seq<Action>) {
    forall i, j :: 0 <= i < j < |run| ==> run[i].at <= run[j].at
  }

  /** The i-th action is a request that passes. */
  predicate Passes(p: Policy, b: View, run: seq<Action>, i: nat)
    requires b.failures <= b.total && i < |run|
  {
    run[i].Ask? && Allow(p, After(p, b, run[..i]), run[i].at).1
  }

  /** The i-th action trips the breaker. */
  predicate Trips(p: Policy, b: View, run: seq<Action>, i: nat)
    requires b.failures <= b.total && i < |run|
  {
    After(p, b, run[..i]).mode != Open && After(p, b, run[..i + 1]).mode == Open
  }

  lemma PrefixStep(p: Policy, b: View, run: seq<Action>, i: nat)
    requires b.failures <= b.total && i < |run|
    ensures After(p, b, run[..i + 1]) == Step(p, After(p, b, run[..i]), run[i])
  {
    assert Front(run[..i + 1]) == run[..i];
  }

  /** After a trip the breaker stays open until some action comes halfOpenAfter later. */
  lemma {:induction false} OpenUntilCooledDown(p: Policy, b: View, run: seq<Action>, i: nat, j: nat)
    requires b.failures <= b.total && i < j <= |run| && Ordered(run) && Trips(p, b, run, i)
    ensures var v := After(p, b, run[..j]);
            (v.mode == Open && v.openedAt == run[i].at) || run[j - 1].at >= run[i].at + p.halfOpenAfter
  {
    PrefixStep(p, b, run, j - 1);
    if i == j - 1 {
      TripsNow(p, After(p, b, run[..i]), run[i]);
    } else {
      OpenUntilCooledDown(p, b, run, i, j - 1);
      if run[j - 1].at < run[i].at + p.halfOpenAfter {
        assert run[j - 2].at <= run[j - 1].at;
        StaysOpen(p, After(p, b, run[..j - 1]), run[j - 1]);
      }
    }
  }

  lemma TripsNow(p: Policy, v: View, a: Action)
    requires v.failures <= v.total && v.mode != Open && Step(p, v, a).mode == Open
    ensures Step(p, v, a).openedAt == a.at
  {
  }

  lemma StaysOpen(p: Policy, v: View, a: Action)
    requires v.failures <= v.total && v.mode == Open && a.at < v.openedAt + p.halfOpenAfter
    ensures Step(p, v, a) == v
  {
  }

  /** No request passes within halfOpenAfter of any trip before it. */
  lemma NoPassAfterTrip(p: Policy, b: View, run: seq<Action>, i: nat, j: nat)
    requires b.failures <= b.total && i < j < |run| && Ordered(run)
    requires Trips(p, b, run, i) && Passes(p, b, run, j)
    ensures run[j].at >= run[i].at + p.halfOpenAfter
  {
    OpenUntilCooledDown(p, b, run, i, j);
  }

  // ----- half-open episodes

  /** Requests passed and successes recorded since the breaker last became half-open. */
  datatype Tally = Tally(passed: nat, succeeded: nat)

  function Episode(p: Policy, b: View, run: seq<Action>): Tally
    requires b.failures <= b.total
  {
    if run == [] then Tally(0, 0) else
      var before, a := After(p, b, Front(run)), Last(run);
      var t := if before.mode == HalfOpen then Episode(p, b, Front(run)) else Tally(0, 0);
      match a
      case Ask(at) => if before.mode != Closed && Allow(p, before, at).1 then t.(passed := t.passed + 1) else t
      case Success(_) => if before.mode == HalfOpen then t.(succeeded := t.succeeded + 1) else t
      case Failure(_) => t
  }

  /** A breaker as it is created, whatever mode it is seeded with: nothing counted yet. */
  predicate Unused(b: View) {
    b.failures == 0 && b.total == 0 && b.probesSent == 0 && b.probesPassed == 0
  }

  /** A half-open breaker's counters are those of its episode; it has passed at most probeCount
      requests and is still waiting for a success. */
  lemma {:induction false} EpisodeCounts(p: Policy, b: View, run: seq<Action>)
    requires b.failures <= b.total && (b.mode == HalfOpen ==> Unused(b))
    ensures var v, t := After(p, b, run), Episode(p, b, run);
            v.mode == HalfOpen ==>
              && v.probesSent == t.passed && v.probesPassed == t.succeeded
              && t.passed <= Max(0, p.probeCount) && t.succeeded < Max(1, p.probeCount)
  {
    if run != [] {
      EpisodeCounts(p, b, Front(run));
    }
  }

  /** An episode closes exactly on the success that completes probeCount of them, reopens exactly on a
      failure, and is ended by nothing else. */
  lemma EpisodeEnds(p: Policy, b: View, run: seq<Action>)
    requires b.failures <= b.total && (b.mode == HalfOpen ==> Unused(b)) && run != [] && After(p, b, Front(run)).mode == HalfOpen
    ensures var m, t, a := After(p, b, run).mode, Episode(p, b, Front(run)), Last(run);
            && (m == Closed <==> a.Success? && t.succeeded + 1 == Max(1, p.probeCount))
            && (m == Open <==> a.Failure?)
  {
    EpisodeCounts(p, b, Front(run));
  }

  /** Requests alone never end an episode: once its probes are sent, a breaker whose probes report
      nothing refuses every request, however long it waits. */
  lemma {:induction false} SilentProbesBlock(p: Policy, b: View, run: seq<Action>)
    requires b.failures <= b.total && b.mode == HalfOpen && b.probesSent >= p.probeCount
    requires forall i :: 0 <= i < |run| ==> run[i].Ask?
    ensures After(p, b, run) == b && forall i :: 0 <= i < |run| ==> !Passes(p, b, run, i)
  {
    if run != [] {
      SilentProbesBlock(p, b, Front(run));
      forall i | 0 <= i < |run| ensures !Passes(p, b, run, i) {
        if i < |Front(run)| {
          assert Front(run)[..i] == run[..i] && !Passes(p, b, Front(run), i);
        } else {
          assert run[..i] == Front(run);
        }
      }
    }
  }

  // ----- counting while closed

  /** When the current window began: at the last request that found the one before over, or at the success
      that closed the breaker last. */
  function Began(p: Policy, b: View, run: seq<Action>): int
    requires b.failures <= b.total
  {
    if run == [] then b.windowStart else
      var before, a, t := After(p, b, Front(run)).mode, Last(run), Began(p, b, Front(run));
      if before == Closed && a.Ask? && a.at - t > p.window then a.at
      else if before == HalfOpen && After(p, b, run).mode == Closed then a.at
      else t
  }

  lemma {:induction false} BeganExact(p: Policy, b: View, run: seq<Action>)
    requires b.failures <= b.total
    ensures After(p, b, run).windowStart == Began(p, b, run)
  {
    if run != [] {
      BeganExact(p, b, Front(run));
    }
  }

  /** The outcomes counted after action a, when w were counted before, the window began at `began`, and the mode
      goes from `before` to `after`. */
  function WindowNext(p: Policy, before: Mode, after: Mode, a: Action, began: int, w: seq<bool>): seq<bool> {
    match a
    case Ask(at) => if before == Closed && at - began > p.window then [] else w
    case Success(_) => if before == Closed then w + [true] else if after != before then [] else w
    case Failure(_) => if before == Closed then w + [false] else w
  }

  /** Outcomes recorded while closed since the counters were last reset, by a request that finds the
      window over or by closing. */
  function Window(p: Policy, b: View, run: seq<Action>): seq<bool>
    requires b.failures <= b.total
  {
    if run == [] then [] else
      WindowNext(p, After(p, b, Front(run)).mode, After(p, b, run).mode, Last(run), Began(p, b, Front(run)),
                 Window(p, b, Front(run)))
  }

  function Failures(w: seq<bool>): (n: nat)
    ensures n <= |w|
  {
    if w == [] then 0 else Failures(Front(w)) + if Last(w) then 0 else 1
  }

  lemma FailuresSnoc(w: seq<bool>, x: bool)
    ensures Failures(w + [x]) == Failures(w) + if x then 0 else 1
  {
    assert Front(w + [x]) == w;
  }

  lemma StepCounts(p: Policy, v: View, a: Action, w: seq<bool>)
    requires v.failures <= v.total && v.total == |w| && v.failures == Failures(w)
    ensures var r, x := Step(p, v, a), WindowNext(p, v.mode, Step(p, v, a).mode, a, v.windowStart, w);
            r.total == |x| && r.failures == Failures(x)
  {
    FailuresSnoc(w, true);
    FailuresSnoc(w, false);
  }

  /** In every mode, from any seed, the counters are those of the outcomes since the last reset. */
  lemma {:induction false} CountersExact(p: Policy, b: View, run: seq<Action>)
    requires Unused(b)
    ensures var v, w := After(p, b, run), Window(p, b, run);
            v.total == |w| && v.failures == Failures(w)
  {
    if run != [] {
      CountersExact(p, b, Front(run));
      BeganExact(p, b, Front(run));
      StepCounts(p, After(p, b, Front(run)), Last(run), Window(p, b, Front(run)));
    }
  }

  /** The threshold's share of n outcomes. */
  function Share(threshold: real, n: nat): real {
    if n == 0 then 0.0 else Share(threshold, n - 1) + threshold
  }

  lemma {:induction false} ShareIsProduct(threshold: real, n: nat)
    ensures Share(threshold, n) == threshold * n as real
  {
    if n > 0 {
      ShareIsProduct(threshold, n - 1);
      assert threshold * n as real == threshold * (n - 1) as real + threshold;
    }
  }

  lemma RateBelow(rate: real, total: real, threshold: real)
    requires total > 0.0
    ensures rate < threshold <==> rate * total < threshold * total
  {
    if rate < threshold {
      assert (threshold - rate) * total > 0.0;
    } else {
      assert (rate - threshold) * total >= 0.0;
    }
  }

  lemma UnhealthyIff(p: Policy, failures: nat, total: nat)
    requires failures <= total && total > 0
    ensures Unhealthy(p, failures, total) <==> (total - failures) as real < Share(p.threshold, total)
  {
    ShareIsProduct(p.threshold, total);
    var rate := (total - failures) as real / total as real;
    RateBelow(rate, total as real, p.threshold);
    assert rate * total as real == (total - failures) as real;
  }

  lemma StepOpensIff(p: Policy, b: View, a: Action, failures: nat, total: nat)
    requires b.mode == Closed && b.failures + 1 == failures <= total == b.total + 1
    ensures Step(p, b, a).mode == Open <==>
            a.Failure? && total >= p.minRequests && (total - failures) as real < Share(p.threshold, total)
    ensures Step(p, b, a).mode != HalfOpen
  {
    UnhealthyIff(p, failures, total);
  }

  lemma CountsOpen(p: Policy, b: View, run: seq<Action>, failures: nat, total: nat)
    requires b.failures <= b.total && run != [] && After(p, b, Front(run)).mode == Closed
    requires After(p, b, Front(run)).failures + 1 == failures && After(p, b, Front(run)).total + 1 == total
    ensures After(p, b, run).mode == Open <==>
            Last(run).Failure? && total >= p.minRequests && (total - failures) as real < Share(p.threshold, total)
    ensures After(p, b, run).mode != HalfOpen
  {
    StepOpensIff(p, After(p, b, Front(run)), Last(run), failures, total);
  }

  /** A closed breaker opens exactly on a failure that brings at least minRequests outcomes since the last
      reset, of which fewer than the threshold's share are successes. Otherwise it stays closed. */
  lemma OpensIff(p: Policy, b: View, run: seq<Action>)
    requires Unused(b) && run != [] && After(p, b, Front(run)).mode == Closed
    ensures var w := Window(p, b, Front(run)) + [false];
            After(p, b, run).mode == Open <==>
            Last(run).Failure? && |w| >= p.minRequests && (|w| - Failures(w)) as real < Share(p.threshold, |w|)
    ensures After(p, b, run).mode != HalfOpen
  {
    var w := Window(p, b, Front(run));
    CountersExact(p, b, Front(run));
    FailuresSnoc(w, false);
    CountsOpen(p, b, run, Failures(w + [false]), |w + [false]|);
  }

  // ----- which requests pass

  /** When the breaker was last tripped. */
  function TrippedAt(p: Policy, b: View, run: seq<Action>): int
    requires b.failures <= b.total
  {
    if run == [] then b.openedAt
    else if After(p, b, Front(run)).mode != Open && After(p, b, run).mode == Open then Last(run).at
    else TrippedAt(p, b, Front(run))
  }

  lemma {:induction false} TrippedAtExact(p: Policy, b: View, run: seq<Action>)
    requires b.failures <= b.total
    ensures After(p, b, run).openedAt == TrippedAt(p, b, run)
  {
    if run != [] {
      TrippedAtExact(p, b, Front(run));
    }
  }

  /** An open breaker turns half-open exactly on a request that comes halfOpenAfter or more after the trip,
      and never closes. */
  lemma HalfOpensIff(p: Policy, b: View, run: seq<Action>)
    requires b.failures <= b.total && run != [] && After(p, b, Front(run)).mode == Open
    ensures After(p, b, run).mode == HalfOpen <==>
            Last(run).Ask? && Last(run).at - TrippedAt(p, b, Front(run)) >= p.halfOpenAfter
    ensures After(p, b, run).mode != Closed
  {
    TrippedAtExact(p, b, Front(run));
  }

  /** Requests made in the current half-open episode, passed or not, with the one that began it. */
  function Asked(p: Policy, b: View, run: seq<Action>): nat
    requires b.failures <= b.total
  {
    if run == [] || After(p, b, run).mode != HalfOpen then 0
    else (if After(p, b, Front(run)).mode == HalfOpen then Asked(p, b, Front(run)) else 0) + if Last(run).Ask? then 1 else 0
  }

  lemma {:induction false} ProbesSent(p: Policy, b: View, run: seq<Action>)
    requires b.failures <= b.total && (b.mode == HalfOpen ==> Unused(b)) && After(p, b, run).mode == HalfOpen
    ensures After(p, b, run).probesSent == Min(Asked(p, b, run), Max(0, p.probeCount))
  {
    if run != [] && After(p, b, Front(run)).mode == HalfOpen {
      ProbesSent(p, b, Front(run));
    }
  }

  /** Exactly which requests pass: those of a closed breaker; those of an open one that come halfOpenAfter or
      more after the trip, if there are probes at all; and the first probeCount of a half-open episode. */
  lemma PassesIff(p: Policy, b: View, run: seq<Action>, i: nat)
    requires b.failures <= b.total && (b.mode == HalfOpen ==> Unused(b)) && i < |run| && run[i].Ask?
    ensures Passes(p, b, run, i) <==>
            match After(p, b, run[..i]).mode
            case Closed => true
            case Open => run[i].at - TrippedAt(p, b, run[..i]) >= p.halfOpenAfter && p.probeCount > 0
            case HalfOpen => Asked(p, b, run[..i]) < p.probeCount
  {
    TrippedAtExact(p, b, run[..i]);
    if After(p, b, run[..i]).mode == HalfOpen {
      ProbesSent(p, b, run[..i]);
    }
  }
}
