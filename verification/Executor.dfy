/** The fallback executor: retry with backoff inside a candidate loop that rebuilds its own list when
    a provider reports a context overflow.

    Providers, lookups and cancellation are oracles: `World` answers the n-th lookup and the n-th call
    arbitrarily, so every statement holds for every provider behaviour. `streaming` selects between
    Chat (Execute, chatWithRetry) and Stream (ExecuteStream, streamWithRetry), which the source writes
    out twice. */
module Executor {
  import opened Seqs

  datatype Candidate = Candidate(provider: string, model: string, score: real)
  datatype Decision = Decision(model: string, fallbackChain: seq<Candidate>)

  /** An error, with the three classifications the executor derives from it. They are independent:
      an HTTP 400 may at once be a client error and a context overflow. */
  datatype Failure = Failure(text: string, cancelled: bool, client: bool, overflow: bool)

  /** What one Chat or Stream call does: the chunks it hands to the callback, then how it ends. */
  datatype Reply = Reply(chunks: seq<string>, response: string, failure: Option<Failure>)

  datatype Context = Running | Canceled | DeadlineExceeded

  datatype World = World(
    lookup: (nat, string) -> Option<Failure>,
    call: (nat, string) -> Reply,
    context: nat -> Context,
    window: string -> int)

  /** `grow` is multiplication by the backoff factor, truncated to a whole duration. */
  datatype RetryConfig = RetryConfig(maxAttempts: int, initialBackoff: int, maxBackoff: int, grow: int -> int)

  function ContextError(c: Context): Failure {
    Failure(if c == Canceled then "context canceled" else "context deadline exceeded", true, false, false)
  }

  // ----- retry within one candidate

  /** Outcome of chatWithRetry or streamWithRetry: `delivered` is what the callback received and
      `waits` the backoff durations slept, in order. */
  datatype Retried = Retried(
    response: Option<string>, attempts: int, failure: Option<Failure>, delivered: seq<string>, waits: seq<int>)

  /** What the callback receives from one call: only Stream has a callback. */
  function Heard(streaming: bool, r: Reply): seq<string> {
    if streaming then r.chunks else []
  }

  /** A failed call that the retry loop may repeat. */
  predicate Retriable(streaming: bool, r: Reply) {
    r.failure.Some? && !r.failure.value.cancelled && !r.failure.value.client && Heard(streaming, r) == []
  }

  /** The wait after failed attempt k (counted from 0). */
  function Backoff(cfg: RetryConfig, k: nat): int {
    if k == 0 then cfg.initialBackoff
    else Min(cfg.grow(Backoff(cfg, k - 1)), cfg.maxBackoff)
  }

  /** The n calls from `base` on all failed retriably and the context survived the wait after each. */
  ghost predicate Retries(w: World, streaming: bool, model: string, base: nat, n: nat) {
    n > 0 ==>
    && Retries(w, streaming, model, base, n - 1)
    && Retriable(streaming, w.call(base + n - 1, model))
    && w.context(base + n - 1) == Running
  }

  function Waits(cfg: RetryConfig, n: nat): (r: seq<int>)
    ensures |r| == n
  {
    if n == 0 then [] else Waits(cfg, n - 1) + [Backoff(cfg, n - 1)]
  }

  /** The loop is over after this reply: it won, is not worth repeating, or was the last allowed. */
  predicate Final(cfg: RetryConfig, streaming: bool, last: Reply, attempts: int) {
    !Retriable(streaming, last) || attempts >= cfg.maxAttempts
  }

  /** The outcome of a loop that made `attempts` calls, the last being number n with this reply; a
      loop that is not over was interrupted by its context during the wait that followed. */
  function Outcome(w: World, cfg: RetryConfig, streaming: bool, last: Reply, n: nat, attempts: nat): Retried
    requires attempts > 0
  {
    var response := if last.failure.None? && !streaming then Some(last.response) else None;
    if Final(cfg, streaming, last, attempts)
    then Retried(response, attempts, last.failure, Heard(streaming, last), Waits(cfg, attempts - 1))
    else Retried(response, attempts, Some(ContextError(w.context(n))), Heard(streaming, last), Waits(cfg, attempts))
  }

  /** What the retry loop may return when its first call is call number `base`: it stops at the first
      call that is not retriable, at the attempt limit, or when the context ends during a wait, and
      only its last call reaches the callback. With no attempt allowed it returns neither response
      nor error. */
  ghost predicate IsRetry(w: World, cfg: RetryConfig, streaming: bool, model: string, base: nat, r: Retried) {
    if cfg.maxAttempts <= 0 then
      r == Retried(None, cfg.maxAttempts, None, [], [])
    else
      && 1 <= r.attempts <= cfg.maxAttempts
      && Retries(w, streaming, model, base, r.attempts - 1)
      && var n := base + r.attempts - 1;
      && (Final(cfg, streaming, w.call(n, model), r.attempts) || w.context(n) != Running)
      && r == Outcome(w, cfg, streaming, w.call(n, model), n, r.attempts)
  }

  method WithRetry(w: World, cfg: RetryConfig, streaming: bool, model: string, base: nat) returns (r: Retried)
    ensures IsRetry(w, cfg, streaming, model, base, r)
  {
    var backoff := cfg.initialBackoff;
    var delivered: seq<string> := [];
    var waits: seq<int> := [];
    var i := 0;
    while i < cfg.maxAttempts
      invariant 0 <= i <= Max(0, cfg.maxAttempts - 1)
      invariant Retries(w, streaming, model, base, i)
      invariant delivered == []
      invariant waits == Waits(cfg, i) && backoff == Backoff(cfg, i)
      decreases cfg.maxAttempts - i
    {
      var reply := w.call(base + i, model);
      delivered := delivered + Heard(streaming, reply);
      if reply.failure.None? {
        return Retried(if streaming then None else Some(reply.response), i + 1, None, delivered, waits);
      }
      if !Retriable(streaming, reply) || i == cfg.maxAttempts - 1 {
        return Retried(None, i + 1, reply.failure, delivered, waits);
      }
      waits := waits + [backoff];
      if w.context(base + i) != Running {
        return Retried(None, i + 1, Some(ContextError(w.context(base + i))), delivered, waits);
      }
      backoff := Min(cfg.grow(backoff), cfg.maxBackoff);
      i := i + 1;
    }
    return Retried(None, cfg.maxAttempts, None, delivered, waits);
  }

  /** All chunks of the calls base, ..., base + n - 1, in order. */
  function Emitted(w: World, model: string, base: nat, n: nat): seq<string> {
    if n == 0 then [] else Emitted(w, model, base, n - 1) + w.call(base + n - 1, model).chunks
  }

  /** No chunk is ever replayed: everything the provider emitted over all attempts is exactly what the
      last attempt emitted, and that is what the callback received. */
  lemma {:induction false} StreamDeliversOneAttempt(w: World, cfg: RetryConfig, model: string, base: nat, r: Retried)
    requires IsRetry(w, cfg, true, model, base, r) && 1 <= cfg.maxAttempts
    ensures r.delivered == w.call(base + r.attempts - 1, model).chunks
    ensures r.delivered == Emitted(w, model, base, r.attempts)
  {
    EarlierAttemptsSilent(w, model, base, r.attempts - 1);
  }

  lemma {:induction false} EarlierAttemptsSilent(w: World, model: string, base: nat, n: nat)
    requires Retries(w, true, model, base, n)
    ensures Emitted(w, model, base, n) == []
  {
    if n > 0 {
      EarlierAttemptsSilent(w, model, base, n - 1);
    }
  }

  // ----- backoff arithmetic

  function Power(f: nat, k: nat): nat {
    if k == 0 then 1 else f * Power(f, k - 1)
  }

  function Total(s: seq<int>): int {
    if s == [] then 0 else Total(Front(s)) + Last(s)
  }

  lemma MinTimes(x: nat, m: nat, f: nat)
    requires 1 <= f
    ensures Min(Min(x, m) * f, m) == Min(x * f, m)
  {
    if m < x {
      assert m <= m * f <= x * f;
    }
  }

  /** With an integral factor f the capped recurrence is the closed form min(initial * f^k, max). */
  lemma {:induction false} BackoffClosedForm(cfg: RetryConfig, f: nat, k: nat)
    requires 1 <= f && forall b: nat :: cfg.grow(b) == b * f
    requires 0 <= cfg.initialBackoff <= cfg.maxBackoff
    ensures Backoff(cfg, k) == Min(cfg.initialBackoff * Power(f, k), cfg.maxBackoff)
  {
    if k > 0 {
      BackoffClosedForm(cfg, f, k - 1);
      PowerStep(cfg.initialBackoff, f, k);
      MinTimes(cfg.initialBackoff * Power(f, k - 1), cfg.maxBackoff, f);
    }
  }

  lemma PowerStep(x: nat, f: nat, k: nat)
    requires k > 0
    ensures x * Power(f, k) == x * Power(f, k - 1) * f
    ensures 0 <= x * Power(f, k - 1)
  {
  }

  lemma BackoffBounded(cfg: RetryConfig, k: nat)
    ensures Backoff(cfg, k) <= Max(cfg.initialBackoff, cfg.maxBackoff)
  {
  }

  lemma {:induction false} WaitsBounded(cfg: RetryConfig, n: nat, m: nat)
    requires cfg.initialBackoff <= m && cfg.maxBackoff <= m
    ensures Total(Waits(cfg, n)) <= n * m
  {
    if n > 0 {
      WaitsBounded(cfg, n - 1, m);
      BackoffBounded(cfg, n - 1);
      assert Front(Waits(cfg, n)) == Waits(cfg, n - 1);
      assert n * m == (n - 1) * m + m;
    }
  }

  /** For every growth function: a retry loop waits at most maxAttempts - 1 times, each time at most
      the larger of the initial and the maximal backoff. */
  lemma WaitingBounded(w: World, cfg: RetryConfig, streaming: bool, model: string, base: nat, r: Retried, m: nat)
    requires IsRetry(w, cfg, streaming, model, base, r)
    requires cfg.initialBackoff <= m && cfg.maxBackoff <= m
    ensures |r.waits| <= Max(0, cfg.maxAttempts - 1)
    ensures Total(r.waits) <= |r.waits| * m
  {
    WaitsBounded(cfg, |r.waits|, m);
  }

  // ----- escalation

  predicate SortedByWindow(window: string -> int, s: seq<Candidate>) {
    forall i, j :: 0 <= i < j < |s| ==> window(s[i].model) <= window(s[j].model)
  }

  /** Insert x behind the elements whose window does not exceed its own. */
  function Insert(window: string -> int, s: seq<Candidate>, x: Candidate): (r: seq<Candidate>)
    ensures |r| == |s| + 1
  {
    if s == [] || window(Last(s).model) <= window(x.model) then s + [x]
    else Insert(window, Front(s), x) + [Last(s)]
  }

  function SortByWindow(window: string -> int, s: seq<Candidate>): (r: seq<Candidate>)
    ensures |r| == |s|
  {
    if s == [] then [] else Insert(window, SortByWindow(window, Front(s)), Last(s))
  }

  function Larger(window: string -> int, min: int): Candidate -> bool {
    (c: Candidate) => window(c.model) > min
  }

  function HasWindow(window: string -> int, k: int): Candidate -> bool {
    (c: Candidate) => window(c.model) == k
  }

  /** The list that replaces the remaining candidates after an overflow of a model with window `min`. */
  function Escalated(window: string -> int, remaining: seq<Candidate>, min: int): (r: seq<Candidate>)
    ensures |r| <= |remaining|
  {
    SortByWindow(window, Filter(Larger(window, min), remaining))
  }

  /** escalateCandidates: filter, then sort in place by adjacent swaps. */
  method EscalateCandidates(window: string -> int, remaining: seq<Candidate>, min: int) returns (r: seq<Candidate>)
    ensures r == Escalated(window, remaining, min)
  {
    var eligible: seq<Candidate> := [];
    for n := 0 to |remaining|
      invariant eligible == Filter(Larger(window, min), remaining[..n])
    {
      assert Front(remaining[..n + 1]) == remaining[..n];
      if window(remaining[n].model) > min {
        eligible := eligible + [remaining[n]];
      }
    }
    assert remaining[..|remaining|] == remaining;
    var a := new Candidate[|eligible|](k requires 0 <= k < |eligible| => eligible[k]);
    assert a[..] == eligible;
    SortInPlace(window, a);
    r := a[..];
  }

  method SortInPlace(window: string -> int, a: array<Candidate>)
    modifies a
    ensures a[..] == SortByWindow(window, old(a[..]))
  {
    ghost var s := a[..];
    if a.Length == 0 {
      return;
    }
    var i := 1;
    assert Front(s[..1]) == [] && s[..1] == a[..1];
    while i < a.Length
      invariant 1 <= i <= a.Length
      invariant a[..i] == SortByWindow(window, s[..i])
      invariant a[i..] == s[i..]
    {
      assert Front(s[..i + 1]) == s[..i] && a[i] == s[i];
      InsertInPlace(window, a, i);
      i := i + 1;
    }
    assert s[..i] == s && a[..i] == a[..];
  }

  /** One round of the insertion sort: sink a[i] into the sorted prefix a[..i]. */
  method InsertInPlace(window: string -> int, a: array<Candidate>, i: nat)
    requires i < a.Length
    modifies a
    ensures a[..i + 1] == Insert(window, old(a[..i]), old(a[i]))
    ensures a[i + 1..] == old(a[i + 1..])
  {
    ghost var t, x := a[..i], a[i];
    var j := i;
    assert t[..i] == t;
    while j > 0 && window(a[j].model) < window(a[j - 1].model)
      invariant 0 <= j <= i
      invariant a[j] == x
      invariant forall m :: 0 <= m < j ==> a[m] == t[m]
      invariant forall m :: j < m <= i ==> a[m] == t[m - 1]
      invariant forall m :: i < m < a.Length ==> a[m] == old(a[m])
      invariant forall m :: j <= m < i ==> window(x.model) < window(t[m].model)
    {
      a[j], a[j - 1] := a[j - 1], a[j];
      j := j - 1;
    }
    InsertSettles(window, t, x, j, a[..i + 1]);
  }

  lemma InsertSettles(window: string -> int, t: seq<Candidate>, x: Candidate, j: nat, r: seq<Candidate>)
    requires j <= |t| && |r| == |t| + 1 && r[j] == x
    requires forall m :: 0 <= m < j ==> r[m] == t[m]
    requires forall m :: j < m <= |t| ==> r[m] == t[m - 1]
    requires forall m :: j <= m < |t| ==> window(x.model) < window(t[m].model)
    requires j > 0 ==> window(t[j - 1].model) <= window(x.model)
    ensures r == Insert(window, t, x)
  {
    InsertSinks(window, t, x, j);
    assert j > 0 ==> Last(t[..j]) == t[j - 1];
    assert r == t[..j] + [x] + t[j..];
  }

  lemma {:induction false} InsertSinks(window: string -> int, t: seq<Candidate>, x: Candidate, j: nat)
    requires j <= |t|
    requires forall m :: j <= m < |t| ==> window(x.model) < window(t[m].model)
    ensures Insert(window, t, x) == Insert(window, t[..j], x) + t[j..]
  {
    if j == |t| {
      assert t[..j] == t;
    } else {
      InsertSinks(window, Front(t), x, j);
      assert Front(t)[..j] == t[..j];
      assert t[j..] == Front(t)[j..] + [Last(t)];
    }
  }

  lemma {:induction false} InsertPermutes(window: string -> int, s: seq<Candidate>, x: Candidate)
    ensures multiset(Insert(window, s, x)) == multiset(s) + multiset{x}
  {
    if s != [] && window(x.model) < window(Last(s).model) {
      InsertPermutes(window, Front(s), x);
      FrontLast(s);
    }
  }

  lemma {:induction false} InsertSorts(window: string -> int, s: seq<Candidate>, x: Candidate)
    requires SortedByWindow(window, s)
    ensures SortedByWindow(window, Insert(window, s, x))
  {
    if s != [] && window(x.model) < window(Last(s).model) {
      InsertSorts(window, Front(s), x);
      InsertPermutes(window, Front(s), x);
      var t := Insert(window, Front(s), x);
      forall i | 0 <= i < |t| ensures window(t[i].model) <= window(Last(s).model) {
        assert t[i] in multiset(t);
        assert t[i] in Front(s) || t[i] == x;
      }
    }
  }

  lemma {:induction false} InsertStable(window: string -> int, s: seq<Candidate>, x: Candidate, k: int)
    requires SortedByWindow(window, s)
    ensures Filter(HasWindow(window, k), Insert(window, s, x)) == Filter(HasWindow(window, k), s + [x])
  {
    if s != [] && window(x.model) < window(Last(s).model) {
      var l, f, p := Last(s), Front(s), HasWindow(window, k);
      InsertStable(window, f, x, k);
      FilterSnoc(p, Insert(window, f, x), l);
      FilterSnoc(p, f, x);
      FilterSnoc(p, s, x);
    }
  }

  lemma {:induction false} SortSorts(window: string -> int, s: seq<Candidate>)
    ensures SortedByWindow(window, SortByWindow(window, s))
    ensures multiset(SortByWindow(window, s)) == multiset(s)
  {
    if s != [] {
      SortSorts(window, Front(s));
      InsertSorts(window, SortByWindow(window, Front(s)), Last(s));
      InsertPermutes(window, SortByWindow(window, Front(s)), Last(s));
      FrontLast(s);
    }
  }

  /** Together with SortSorts: the insertion sort is a stable sort, which determines its result.
      Candidates of equal window keep their original order. */
  lemma {:induction false} SortStable(window: string -> int, s: seq<Candidate>, k: int)
    ensures Filter(HasWindow(window, k), SortByWindow(window, s)) == Filter(HasWindow(window, k), s)
  {
    if s != [] {
      var f, p := SortByWindow(window, Front(s)), HasWindow(window, k);
      SortStable(window, Front(s), k);
      SortSorts(window, Front(s));
      InsertStable(window, f, Last(s), k);
      FilterSnoc(p, f, Last(s));
    }
  }

  // ----- the candidate loop

  /** One turn of the candidate loop: the lookup failed, or the retry loop ran from call number `base`. */
  datatype Visit =
    | Unresolved(candidate: Candidate, cause: Failure)
    | Tried(candidate: Candidate, base: nat, outcome: Retried)

  datatype ExecuteResult = ExecuteResult(
    response: Option<string>, provider: Option<string>, model: string,
    fallbackUsed: bool, fallbackFrom: string, attempts: int)

  function OrderedCandidates(d: Decision): (r: seq<Candidate>)
    ensures |r| == 1 + |d.fallbackChain|
  {
    [Candidate("", d.model, 0.0)] + d.fallbackChain
  }

  predicate Won(v: Visit) {
    v.Tried? && v.outcome.failure.None?
  }

  predicate Aborted(v: Visit) {
    v.Tried? && v.outcome.failure.Some? && v.outcome.failure.value.cancelled
  }

  predicate Overflowed(v: Visit) {
    v.Tried? && v.outcome.failure.Some? && !v.outcome.failure.value.cancelled && v.outcome.failure.value.overflow
  }

  predicate Returns(v: Visit) {
    Won(v) || Aborted(v)
  }

  function ErrorOf(v: Visit): Option<Failure> {
    if v.Tried? then v.outcome.failure else Some(v.cause)
  }

  function Window(w: World, v: Visit): int {
    w.window(v.candidate.model)
  }

  function Models(vs: seq<Visit>): seq<Candidate> {
    if vs == [] then [] else Models(Front(vs)) + [Last(vs).candidate]
  }

  /** What the result reports as attempts. */
  function Attempts(vs: seq<Visit>): int {
    if vs == [] then 0 else Attempts(Front(vs)) + if Last(vs).Tried? then Last(vs).outcome.attempts else 0
  }

  /** How many provider calls were made. */
  function Calls(vs: seq<Visit>): nat {
    if vs == [] then 0 else Calls(Front(vs)) + if Last(vs).Tried? then Max(0, Last(vs).outcome.attempts) else 0
  }

  /** Everything the callback received. */
  function Delivered(vs: seq<Visit>): seq<string> {
    if vs == [] then [] else Delivered(Front(vs)) + if Last(vs).Tried? then Last(vs).outcome.delivered else []
  }

  /** The provider of the last visit whose lookup succeeded. */
  function LastProvider(vs: seq<Visit>): Option<string> {
    if vs == [] then None
    else if Last(vs).Tried? then Some(Last(vs).candidate.model)
    else LastProvider(Front(vs))
  }

  /** The candidates left after visiting the head of `left` with outcome v. */
  function Rest(w: World, left: seq<Candidate>, v: Visit): seq<Candidate>
    requires left != []
  {
    if Overflowed(v) then Escalated(w.window, left[1..], Window(w, v)) else left[1..]
  }

  /** The candidates still to be visited after the visits vs. */
  function Left(w: World, all: seq<Candidate>, vs: seq<Visit>): seq<Candidate> {
    if vs == [] then all else
      var left := Left(w, all, Front(vs));
      if left == [] then [] else Rest(w, left, Last(vs))
  }

  /** Visit number `number` is what the world dictates. */
  ghost predicate IsVisit(w: World, cfg: RetryConfig, streaming: bool, number: nat, base: nat, v: Visit) {
    match w.lookup(number, v.candidate.model)
    case Some(e) => v == Unresolved(v.candidate, e)
    case None => v.Tried? && v.base == base && IsRetry(w, cfg, streaming, v.candidate.model, base, v.outcome)
  }

  /** Every visit goes to the head of what was left, and no visit after which the loop returns has a
      successor. */
  ghost predicate Walk(w: World, all: seq<Candidate>, vs: seq<Visit>) {
    vs != [] ==>
      var front, left := Front(vs), Left(w, all, Front(vs));
      && Walk(w, all, front)
      && (front != [] ==> !Returns(Last(front)))
      && left != [] && Last(vs).candidate == left[0]
  }

  /** Every visit is what the world dictates. */
  ghost predicate Genuine(w: World, cfg: RetryConfig, streaming: bool, vs: seq<Visit>) {
    vs != [] ==>
      && Genuine(w, cfg, streaming, Front(vs))
      && IsVisit(w, cfg, streaming, |Front(vs)|, Calls(Front(vs)), Last(vs))
  }

  /** A complete run of the candidate loop. */
  ghost predicate IsRun(w: World, cfg: RetryConfig, streaming: bool, all: seq<Candidate>, vs: seq<Visit>) {
    && vs != []
    && Walk(w, all, vs)
    && Genuine(w, cfg, streaming, vs)
    && (Returns(Last(vs)) || Left(w, all, vs) == [])
  }

  /** The result that a run with visits vs returns; its error is that of the last visit. */
  function ResultOf(d: Decision, vs: seq<Visit>): ExecuteResult
    requires vs != []
  {
    var last, model := Last(vs), Last(vs).candidate.model;
    if Won(last) then
      ExecuteResult(last.outcome.response, Some(model), model, 1 < |vs|, d.model, Attempts(vs))
    else if Aborted(last) then
      ExecuteResult(None, Some(model), model, false, "", Attempts(vs))
    else
      ExecuteResult(None, LastProvider(vs), model, 1 < |vs| || Overflowed(last), d.model, Attempts(vs))
  }

  /** The lookup and the retry loop of one turn. */
  method VisitCandidate(w: World, cfg: RetryConfig, streaming: bool, number: nat, base: nat, candidate: Candidate)
    returns (v: Visit)
    ensures IsVisit(w, cfg, streaming, number, base, v) && v.candidate == candidate
  {
    var lookupErr := w.lookup(number, candidate.model);
    if lookupErr.Some? {
      return Unresolved(candidate, lookupErr.value);
    }
    var outcome := WithRetry(w, cfg, streaming, candidate.model, base);
    return Tried(candidate, base, outcome);
  }

  lemma Snoc(vs: seq<Visit>, v: Visit) returns (r: seq<Visit>)
    ensures r != [] && Front(r) == vs && Last(r) == v
  {
    r := vs + [v];
  }

  /** The end of one turn: step to the next candidate, or rebuild the list and restart at its head. */
  method Advance(w: World, ordered: seq<Candidate>, i: nat, v: Visit) returns (r: seq<Candidate>, k: nat)
    requires i < |ordered| && v.candidate == ordered[i]
    ensures k <= |r| && |r| - k < |ordered| - i
    ensures r[k..] == Rest(w, ordered[i..], v)
    ensures !Overflowed(v) ==> k == i + 1
  {
    assert ordered[i..][1..] == ordered[i + 1..];
    r, k := ordered, i + 1;
    if Overflowed(v) {
      r := EscalateCandidates(w.window, ordered[i + 1..], w.window(v.candidate.model));
      k := 0;
    }
  }

  /** Run vs is complete and ends with result r and error `failure`. */
  ghost predicate Yields(
    w: World, cfg: RetryConfig, streaming: bool, d: Decision, vs: seq<Visit>, r: ExecuteResult, failure: Option<Failure>)
  {
    IsRun(w, cfg, streaming, OrderedCandidates(d), vs) && r == ResultOf(d, vs) && failure == ErrorOf(Last(vs))
  }

  method Execute(w: World, cfg: RetryConfig, streaming: bool, d: Decision)
    returns (r: ExecuteResult, failure: Option<Failure>)
    ensures exists vs :: Yields(w, cfg, streaming, d, vs, r, failure)
  {
    var ordered := OrderedCandidates(d);
    ghost var all := ordered;
    var lastErr: Option<Failure> := None;
    var lastCandidate, lastProvider := "", None;
    var totalAttempts, visits, calls := 0, 0, 0;
    var usedFallback := false;
    ghost var vs: seq<Visit> := [];
    var i := 0;
    while i < |ordered|
      invariant 0 <= i <= |ordered|
      invariant visits == |vs| && calls == Calls(vs) && totalAttempts == Attempts(vs)
      invariant Walk(w, all, vs) && Genuine(w, cfg, streaming, vs) && (vs != [] ==> !Returns(Last(vs)))
      invariant Left(w, all, vs) == ordered[i..]
      invariant lastProvider == LastProvider(vs)
      invariant !usedFallback ==> i == |vs|
      invariant if vs == [] then !usedFallback && i < |ordered| else
                  && lastCandidate == Last(vs).candidate.model
                  && lastErr == ErrorOf(Last(vs))
                  && usedFallback == (1 < |vs| || Overflowed(Last(vs)))
      decreases |ordered| - i
    {
      var candidate := ordered[i];
      lastCandidate := candidate.model;
      if i > 0 {
        usedFallback := true;
      }
      var v := VisitCandidate(w, cfg, streaming, visits, calls, candidate);
      vs := Snoc(vs, v);
      visits := visits + 1;
      lastErr := ErrorOf(v);
      if v.Tried? {
        lastProvider := Some(candidate.model);
        totalAttempts, calls := totalAttempts + v.outcome.attempts, calls + Max(0, v.outcome.attempts);
        if lastErr.None? {
          r := ExecuteResult(v.outcome.response, lastProvider, candidate.model, usedFallback, d.model, totalAttempts);
          assert Yields(w, cfg, streaming, d, vs, r, None);
          return r, None;
        }
        if lastErr.value.cancelled {
          r := ExecuteResult(None, lastProvider, candidate.model, false, "", totalAttempts);
          assert Yields(w, cfg, streaming, d, vs, r, lastErr);
          return r, lastErr;
        }
        if lastErr.value.overflow {
          usedFallback := true;
        }
      }
      ordered, i := Advance(w, ordered, i, v);
    }
    r := ExecuteResult(None, lastProvider, lastCandidate, usedFallback, d.model, totalAttempts);
    assert Yields(w, cfg, streaming, d, vs, r, lastErr);
    return r, lastErr;
  }

  // ----- whole runs

  /** Some overflow so far was of a model at least as large as c. */
  ghost predicate Outgrown(w: World, vs: seq<Visit>, c: Candidate) {
    exists j :: 0 <= j < |vs| && Overflowed(vs[j]) && w.window(c.model) <= Window(w, vs[j])
  }

  lemma OutgrownExtends(w: World, vs: seq<Visit>, c: Candidate)
    requires vs != []
    ensures Outgrown(w, Front(vs), c) ==> Outgrown(w, vs, c)
    ensures Overflowed(Last(vs)) && w.window(c.model) <= Window(w, Last(vs)) ==> Outgrown(w, vs, c)
  {
    if Outgrown(w, Front(vs), c) {
      var j :| 0 <= j < |Front(vs)| && Overflowed(vs[j]) && w.window(c.model) <= Window(w, vs[j]);
    }
    assert vs[|vs| - 1] == Last(vs);
  }

  lemma EscalatedIs(window: string -> int, remaining: seq<Candidate>, min: int, c: Candidate)
    ensures multiset(Escalated(window, remaining, min))[c] == if window(c.model) > min then multiset(remaining)[c] else 0
    ensures c in Escalated(window, remaining, min) <==> c in remaining && window(c.model) > min
  {
    var eligible := Filter(Larger(window, min), remaining);
    SortSorts(window, eligible);
    FilterCounts(Larger(window, min), remaining, c);
    FilterIn(Larger(window, min), remaining, c);
    assert c in Escalated(window, remaining, min) <==> c in multiset(eligible);
  }

  /** One turn of the loop loses its head and, on an overflow, the occurrences of what is too small. */
  lemma RestIs(w: World, left: seq<Candidate>, v: Visit, c: Candidate)
    requires left != []
    ensures c in Rest(w, left, v) ==> c in left[1..] && (Overflowed(v) ==> Window(w, v) < w.window(c.model))
    ensures multiset(Rest(w, left, v))[c] ==
            if Overflowed(v) && w.window(c.model) <= Window(w, v) then 0
            else multiset(left)[c] - if c == left[0] then 1 else 0
  {
    EscalatedIs(w.window, left[1..], Window(w, v), c);
    assert left == [left[0]] + left[1..];
  }

  /** No candidate is visited more often than it is listed, whatever overflows: its visits and its
      occurrences among those still waiting together are at most its occurrences in the list, and
      fewer only if some model at least as large overflowed. */
  lemma {:induction false} VisitsAtMostOnce(w: World, all: seq<Candidate>, vs: seq<Visit>, c: Candidate)
    requires Walk(w, all, vs)
    ensures multiset(Models(vs))[c] + multiset(Left(w, all, vs))[c] <= multiset(all)[c]
    ensures multiset(Models(vs))[c] + multiset(Left(w, all, vs))[c] < multiset(all)[c] ==> Outgrown(w, vs, c)
  {
    if vs != [] {
      var front, v := Front(vs), Last(vs);
      VisitsAtMostOnce(w, all, front, c);
      RestIs(w, Left(w, all, front), v, c);
      OutgrownExtends(w, vs, c);
    }
  }

  /** On exhaustion the loop has not given up early: whatever is listed but unvisited has a window no
      larger than that of some model that already overflowed. */
  lemma ExhaustionIsJustified(w: World, cfg: RetryConfig, streaming: bool, all: seq<Candidate>, vs: seq<Visit>, c: Candidate)
    requires IsRun(w, cfg, streaming, all, vs) && !Returns(Last(vs))
    requires multiset(Models(vs))[c] < multiset(all)[c]
    ensures Outgrown(w, vs, c)
  {
    VisitsAtMostOnce(w, all, vs, c);
  }

  lemma {:induction false} VisitsBounded(w: World, all: seq<Candidate>, vs: seq<Visit>)
    requires Walk(w, all, vs)
    ensures |vs| + |Left(w, all, vs)| <= |all|
  {
    if vs != [] {
      VisitsBounded(w, all, Front(vs));
    }
  }

  lemma VisitAttempts(w: World, cfg: RetryConfig, streaming: bool, number: nat, base: nat, v: Visit)
    requires IsVisit(w, cfg, streaming, number, base, v) && v.Tried? && 1 <= cfg.maxAttempts
    ensures 1 <= v.outcome.attempts <= cfg.maxAttempts
  {
  }

  lemma TimesStep(n: nat, m: nat)
    ensures (n + 1) * m == n * m + m
  {
  }

  lemma {:induction false} AttemptsBounded(w: World, cfg: RetryConfig, streaming: bool, vs: seq<Visit>)
    requires Genuine(w, cfg, streaming, vs) && 1 <= cfg.maxAttempts
    ensures Attempts(vs) == Calls(vs) <= |vs| * cfg.maxAttempts
  {
    if vs == [] {
      assert |vs| == 0;
    } else {
      AttemptsBounded(w, cfg, streaming, Front(vs));
      if Last(vs).Tried? {
        VisitAttempts(w, cfg, streaming, |Front(vs)|, Calls(Front(vs)), Last(vs));
      }
      TimesStep(|Front(vs)|, cfg.maxAttempts);
    }
  }

  lemma TimesMonotone(a: nat, b: nat, m: nat)
    requires a <= b
    ensures a * m <= b * m
  {
  }

  /** The whole run calls providers at most maxAttempts * (1 + chain length) times. */
  lemma TotalAttempts(w: World, cfg: RetryConfig, streaming: bool, d: Decision, vs: seq<Visit>)
    requires IsRun(w, cfg, streaming, OrderedCandidates(d), vs) && 1 <= cfg.maxAttempts
    ensures Attempts(vs) == Calls(vs) <= (1 + |d.fallbackChain|) * cfg.maxAttempts
  {
    AttemptsBounded(w, cfg, streaming, vs);
    VisitsBounded(w, OrderedCandidates(d), vs);
    TimesMonotone(|vs|, 1 + |d.fallbackChain|, cfg.maxAttempts);
  }

  /** An overflow happened before visit number n. */
  predicate Escalating(vs: seq<Visit>, n: nat)
    requires n <= |vs|
  {
    exists j :: 0 <= j < n && Overflowed(vs[j])
  }

  lemma EscalatingFront(vs: seq<Visit>, n: nat)
    requires vs != [] && n <= |vs|
    ensures n < |vs| ==> Escalating(vs, n) == Escalating(Front(vs), n)
    ensures n == |vs| ==> Escalating(vs, n) == (Escalating(Front(vs), |Front(vs)|) || Overflowed(Last(vs)))
  {
  }

  /** Up to the first overflow what is left is the rest of the list; after it, it is sorted. */
  lemma {:induction false} LeftSorted(w: World, all: seq<Candidate>, vs: seq<Visit>)
    requires Walk(w, all, vs)
    ensures Escalating(vs, |vs|) ==> SortedByWindow(w.window, Left(w, all, vs))
    ensures !Escalating(vs, |vs|) ==> |vs| <= |all| && Left(w, all, vs) == all[|vs|..]
  {
    if vs != [] {
      LeftSorted(w, all, Front(vs));
      EscalatingFront(vs, |vs|);
      var left := Left(w, all, Front(vs));
      SortSorts(w.window, Filter(Larger(w.window, Window(w, Last(vs))), left[1..]));
    }
  }

  /** A candidate still waiting is larger than everything that overflowed, and not smaller than
      anything visited since the first overflow. */
  lemma {:induction false} LeftAscends(w: World, all: seq<Candidate>, vs: seq<Visit>, c: Candidate, j: nat)
    requires Walk(w, all, vs) && c in Left(w, all, vs) && j < |vs|
    ensures Overflowed(vs[j]) ==> Window(w, vs[j]) < w.window(c.model)
    ensures Escalating(vs, j) ==> Window(w, vs[j]) <= w.window(c.model)
  {
    var front := Front(vs);
    var left := Left(w, all, front);
    RestIs(w, left, Last(vs), c);
    EscalatingFront(vs, j);
    if j < |front| {
      assert c in left;
      LeftAscends(w, all, front, c, j);
    } else {
      LeftSorted(w, all, front);
      var k :| 0 <= k < |left[1..]| && left[1..][k] == c;
      assert left[k + 1] == c;
    }
  }

  /** The order of visits: up to the first overflow they follow the list; from then on their windows
      never decrease, and they strictly exceed every window that overflowed before. */
  lemma {:induction false} VisitOrder(w: World, all: seq<Candidate>, vs: seq<Visit>, i: nat, j: nat)
    requires Walk(w, all, vs) && i < j < |vs|
    ensures Overflowed(vs[i]) ==> Window(w, vs[i]) < Window(w, vs[j])
    ensures Escalating(vs, i) ==> Window(w, vs[i]) <= Window(w, vs[j])
    ensures !Escalating(vs, j) ==> j < |all| && vs[j].candidate == all[j]
  {
    var front := Front(vs);
    EscalatingFront(vs, i);
    EscalatingFront(vs, j);
    if j < |front| {
      VisitOrder(w, all, front, i, j);
    } else {
      LeftAscends(w, all, front, vs[j].candidate, i);
      LeftSorted(w, all, front);
    }
  }

  // ----- what the result reports

  lemma {:induction false} FirstVisit(w: World, all: seq<Candidate>, vs: seq<Visit>)
    requires Walk(w, all, vs) && vs != []
    ensures all != [] && vs[0].candidate == all[0]
  {
    if |vs| > 1 {
      FirstVisit(w, all, Front(vs));
    }
  }

  lemma {:induction false} LeftInTail(w: World, all: seq<Candidate>, vs: seq<Visit>, c: Candidate)
    requires Walk(w, all, vs) && vs != [] && c in Left(w, all, vs) && all != []
    ensures c in all[1..]
  {
    RestIs(w, Left(w, all, Front(vs)), Last(vs), c);
    if |vs| > 1 {
      LeftInTail(w, all, Front(vs), c);
    }
  }

  lemma {:induction false} OnlyLastWins(w: World, all: seq<Candidate>, vs: seq<Visit>, j: nat)
    requires Walk(w, all, vs) && j < |vs| - 1
    ensures !Returns(vs[j])
  {
    if j < |vs| - 2 {
      OnlyLastWins(w, all, Front(vs), j);
    }
  }

  /** A success says FallbackUsed exactly when the first candidate did not win; without FallbackUsed the
      chosen model answered, and if the chain does not list it again, with FallbackUsed another one. */
  lemma FallbackReported(w: World, cfg: RetryConfig, streaming: bool, d: Decision, vs: seq<Visit>)
    requires IsRun(w, cfg, streaming, OrderedCandidates(d), vs) && Won(Last(vs))
    ensures ResultOf(d, vs).fallbackUsed <==> !Won(vs[0])
    ensures !ResultOf(d, vs).fallbackUsed ==> ResultOf(d, vs).model == d.model
    ensures (forall c :: c in d.fallbackChain ==> c.model != d.model) ==>
              (ResultOf(d, vs).fallbackUsed <==> ResultOf(d, vs).model != d.model)
  {
    FirstVisit(w, OrderedCandidates(d), vs);
    if |vs| > 1 {
      OnlyLastWins(w, OrderedCandidates(d), vs, 0);
      LeftInTail(w, OrderedCandidates(d), Front(vs), Last(vs).candidate);
    }
  }

  lemma {:induction false} VisitAt(w: World, cfg: RetryConfig, streaming: bool, vs: seq<Visit>, j: nat)
    requires Genuine(w, cfg, streaming, vs) && j < |vs|
    ensures IsVisit(w, cfg, streaming, j, Calls(vs[..j]), vs[j])
  {
    if j < |vs| - 1 {
      VisitAt(w, cfg, streaming, Front(vs), j);
      assert Front(vs)[..j] == vs[..j];
    } else {
      assert vs[..j] == Front(vs);
    }
  }

  lemma {:induction false} NoProviderSeen(vs: seq<Visit>)
    ensures LastProvider(vs).None? <==> forall j :: 0 <= j < |vs| ==> vs[j].Unresolved?
  {
    if vs != [] {
      NoProviderSeen(Front(vs));
    }
  }

  /** While no lookup succeeds, nothing overflows: the run walks down the list to its end. */
  lemma UnresolvedRun(w: World, cfg: RetryConfig, streaming: bool, all: seq<Candidate>, vs: seq<Visit>)
    requires IsRun(w, cfg, streaming, all, vs) && forall j :: 0 <= j < |vs| ==> vs[j].Unresolved?
    ensures |vs| == |all|
    ensures forall j :: 0 <= j < |all| ==> w.lookup(j, all[j].model).Some?
  {
    LeftSorted(w, all, vs);
    forall j | 0 <= j < |all| ensures w.lookup(j, all[j].model).Some? {
      VisitAt(w, cfg, streaming, vs, j);
      InListOrder(w, all, vs, j);
    }
  }

  lemma InListOrder(w: World, all: seq<Candidate>, vs: seq<Visit>, j: nat)
    requires Walk(w, all, vs) && j < |vs| && !Escalating(vs, j)
    ensures j < |all| && vs[j].candidate == all[j]
  {
    if j == 0 {
      FirstVisit(w, all, vs);
    } else {
      VisitOrder(w, all, vs, j - 1, j);
    }
  }

  lemma {:induction false} FailedLookups(
    w: World, cfg: RetryConfig, streaming: bool, all: seq<Candidate>, vs: seq<Visit>, n: nat)
    requires Walk(w, all, vs) && Genuine(w, cfg, streaming, vs) && n <= |vs|
    requires forall j :: 0 <= j < |all| ==> w.lookup(j, all[j].model).Some?
    ensures forall j :: 0 <= j < n ==> vs[j].Unresolved?
  {
    if n > 0 {
      FailedLookups(w, cfg, streaming, all, vs, n - 1);
      InListOrder(w, all, vs, n - 1);
      VisitAt(w, cfg, streaming, vs, n - 1);
    }
  }

  /** The documentation says that a failed run reports no provider when the lookup of the last
      candidate failed. In fact a run reports none exactly when the lookup of every candidate of the
      list fails: otherwise it reports the last one that was found at all. */
  lemma NoProviderIff(w: World, cfg: RetryConfig, streaming: bool, d: Decision, vs: seq<Visit>)
    requires IsRun(w, cfg, streaming, OrderedCandidates(d), vs)
    ensures var all := OrderedCandidates(d);
            ResultOf(d, vs).provider.None? <==> forall j :: 0 <= j < |all| ==> w.lookup(j, all[j].model).Some?
  {
    var all := OrderedCandidates(d);
    NoProviderSeen(vs);
    if LastProvider(vs).None? {
      UnresolvedRun(w, cfg, streaming, all, vs);
    } else if forall j :: 0 <= j < |all| ==> w.lookup(j, all[j].model).Some? {
      FailedLookups(w, cfg, streaming, all, vs, |vs|);
    }
  }

  const DEMO_CANDIDATES := [Candidate("", "a", 0.0), Candidate("", "b", 0.0)]
  const DEMO_DECISION := Decision("a", [Candidate("", "b", 0.0)])
  const DEMO_FAILURE := Failure("unavailable", false, true, false)

  /** A world of two providers, in which "a" emits a chunk and fails and "b", if it is found, answers. */
  function DemoWorld(findB: bool): World {
    World((n: nat, m: string) => if m == "b" && !findB then Some(DEMO_FAILURE) else None,
          (n: nat, m: string) => if m == "a" then Reply(["x"], "", Some(DEMO_FAILURE)) else Reply(["y"], "", None),
          (n: nat) => Running, (m: string) => 0)
  }

  function DemoRun(findB: bool): seq<Visit> {
    [Tried(DEMO_CANDIDATES[0], 0, Retried(None, 1, Some(DEMO_FAILURE), ["x"], [])),
     if findB then Tried(DEMO_CANDIDATES[1], 1, Retried(None, 1, None, ["y"], []))
     else Unresolved(DEMO_CANDIDATES[1], DEMO_FAILURE)]
  }

  lemma DemoRuns(cfg: RetryConfig, findB: bool)
    requires cfg.maxAttempts >= 1
    ensures IsRun(DemoWorld(findB), cfg, true, OrderedCandidates(DEMO_DECISION), DemoRun(findB))
    ensures Calls(DemoRun(findB)[..1]) == 1
  {
    var w, vs, all := DemoWorld(findB), DemoRun(findB), OrderedCandidates(DEMO_DECISION);
    var v := vs[0];
    assert all == DEMO_CANDIDATES && Front(vs) == [v] == vs[..1] && Front([v]) == [];
    assert IsRetry(w, cfg, true, "a", 0, v.outcome);
    assert Left(w, all, [v]) == all[1..];
    assert Genuine(w, cfg, true, []) && Walk(w, all, []) && Calls([]) == 0;
    assert IsVisit(w, cfg, true, |Front([v])|, Calls(Front([v])), Last([v]));
    assert Genuine(w, cfg, true, [v]) && Walk(w, all, [v]);
    assert findB ==> IsRetry(w, cfg, true, "b", 1, vs[1].outcome);
    assert Left(w, all, vs) == all[1..][1..];
  }

  /** A run whose last lookup fails, and which reports a provider. */
  lemma ProviderDespiteFailedLookup(cfg: RetryConfig)
    requires cfg.maxAttempts >= 1
    ensures var w, vs := DemoWorld(false), DemoRun(false);
            && IsRun(w, cfg, true, OrderedCandidates(DEMO_DECISION), vs)
            && w.lookup(|vs| - 1, Last(vs).candidate.model).Some?
            && ResultOf(DEMO_DECISION, vs).provider == Some("a")
  {
    DemoRuns(cfg, false);
    var vs := DemoRun(false);
    assert Front(vs) == [vs[0]];
  }

  /** The provider's reply to the last attempt of a visit. */
  function LastReply(w: World, v: Visit): Option<Reply> {
    if v.Tried? && v.outcome.attempts >= 1 then Some(w.call(v.base + v.outcome.attempts - 1, v.candidate.model)) else None
  }

  /** A provider emitted chunks and then failed, and not by cancellation: the loop moves on. */
  predicate MovesOnAfterOutput(w: World, v: Visit) {
    var r := LastReply(w, v);
    r.Some? && r.value.chunks != [] && r.value.failure.Some? && !r.value.failure.value.cancelled
  }

  lemma DeliveredIsReply(w: World, cfg: RetryConfig, number: nat, base: nat, v: Visit)
    requires IsVisit(w, cfg, true, number, base, v) && v.Tried?
    ensures v.outcome.delivered == if LastReply(w, v).Some? then LastReply(w, v).value.chunks else []
    ensures v.outcome.delivered != [] ==> v.outcome.failure == LastReply(w, v).value.failure
  {
  }

  lemma EarlierOutput(w: World, cfg: RetryConfig, all: seq<Candidate>, vs: seq<Visit>, j: nat)
    requires Walk(w, all, vs) && Genuine(w, cfg, true, vs) && j < |vs| - 1
    ensures (vs[j].Unresolved? || vs[j].outcome.delivered == []) <==> !MovesOnAfterOutput(w, vs[j])
  {
    OnlyLastWins(w, all, vs, j);
    VisitAt(w, cfg, true, vs, j);
    if vs[j].Tried? {
      DeliveredIsReply(w, cfg, j, Calls(vs[..j]), vs[j]);
    }
  }

  /** Visit j is the last one in which a provider was called. */
  ghost predicate LastCalled(w: World, vs: seq<Visit>, j: nat) {
    j < |vs| && LastReply(w, vs[j]).Some? && forall i :: j < i < |vs| ==> LastReply(w, vs[i]).None?
  }

  /** Visits without a call deliver nothing. */
  lemma {:induction false} SilentTail(w: World, cfg: RetryConfig, vs: seq<Visit>, j: nat, n: nat)
    requires Genuine(w, cfg, true, vs) && LastCalled(w, vs, j) && j < n <= |vs|
    ensures Delivered(vs[..n]) == Delivered(vs[..j + 1])
  {
    if n > j + 1 {
      SilentTail(w, cfg, vs, j, n - 1);
      VisitAt(w, cfg, true, vs, n - 1);
      if vs[n - 1].Tried? {
        DeliveredIsReply(w, cfg, n - 1, Calls(vs[..n - 1]), vs[n - 1]);
      }
      assert Front(vs[..n]) == vs[..n - 1];
      assert Delivered(vs[..n - 1]) + [] == Delivered(vs[..n - 1]);
    }
  }

  lemma SilentBefore(w: World, cfg: RetryConfig, all: seq<Candidate>, vs: seq<Visit>, j: nat)
    requires Walk(w, all, vs) && Genuine(w, cfg, true, vs) && j < |vs|
    ensures Delivered(vs[..j]) == [] <==> forall i :: 0 <= i < j ==> !MovesOnAfterOutput(w, vs[i])
  {
    DeliveredNothingIff(vs[..j]);
    forall i | 0 <= i < j ensures (vs[i].Unresolved? || vs[i].outcome.delivered == []) <==> !MovesOnAfterOutput(w, vs[i]) {
      EarlierOutput(w, cfg, all, vs, i);
    }
    assert forall i :: 0 <= i < j ==> vs[..j][i] == vs[i];
  }

  /** What the client of a streaming run receives is the output of the last provider called, its reply to the
      last call, exactly when no provider before it failed, other than by cancellation, after emitting
      output. */
  lemma ChunksFromOneProviderIff(w: World, cfg: RetryConfig, all: seq<Candidate>, vs: seq<Visit>, j: nat)
    requires IsRun(w, cfg, true, all, vs) && LastCalled(w, vs, j)
    ensures Delivered(vs) == LastReply(w, vs[j]).value.chunks
            <==> forall i :: 0 <= i < j ==> !MovesOnAfterOutput(w, vs[i])
  {
    SilentTail(w, cfg, vs, j, |vs|);
    assert vs[..|vs|] == vs;
    VisitAt(w, cfg, true, vs, j);
    DeliveredIsReply(w, cfg, j, Calls(vs[..j]), vs[j]);
    assert Front(vs[..j + 1]) == vs[..j];
    PrefixNothing(Delivered(vs[..j]), vs[j].outcome.delivered);
    SilentBefore(w, cfg, all, vs, j);
  }

  lemma PrefixNothing(a: seq<string>, b: seq<string>)
    ensures a + b == b <==> a == []
  {
  }

  /** A run that hands the client chunks of two providers. */
  lemma ChunksMixed(cfg: RetryConfig)
    requires cfg.maxAttempts >= 1
    ensures var w, vs := DemoWorld(true), DemoRun(true);
            && IsRun(w, cfg, true, OrderedCandidates(DEMO_DECISION), vs) && Won(Last(vs))
            && Delivered(vs) == ["x", "y"] && LastReply(w, Last(vs)).value.chunks == ["y"]
  {
    DemoRuns(cfg, true);
    var vs := DemoRun(true);
    assert Front(vs) == [vs[0]] && Front([vs[0]]) == [];
    assert Delivered([vs[0]]) == ["x"];
  }

  lemma {:induction false} DeliveredNothingIff(vs: seq<Visit>)
    ensures Delivered(vs) == [] <==> forall j :: 0 <= j < |vs| ==> vs[j].Unresolved? || vs[j].outcome.delivered == []
  {
    if vs != [] {
      DeliveredNothingIff(Front(vs));
    }
  }

  // ----- the specification determines the run

  lemma {:induction false} RetriesAt(w: World, streaming: bool, model: string, base: nat, n: nat, k: nat)
    requires Retries(w, streaming, model, base, n) && k < n
    ensures Retriable(streaming, w.call(base + k, model)) && w.context(base + k) == Running
  {
    if k < n - 1 {
      RetriesAt(w, streaming, model, base, n - 1, k);
    }
  }

  lemma RetryAttemptsUnique(w: World, cfg: RetryConfig, streaming: bool, model: string, base: nat, r: Retried, q: Retried)
    requires IsRetry(w, cfg, streaming, model, base, r) && IsRetry(w, cfg, streaming, model, base, q)
    ensures r.attempts >= q.attempts
  {
    if r.attempts < q.attempts {
      RetriesAt(w, streaming, model, base, q.attempts - 1, r.attempts - 1);
    }
  }

  lemma RetryUnique(w: World, cfg: RetryConfig, streaming: bool, model: string, base: nat, r: Retried, q: Retried)
    requires IsRetry(w, cfg, streaming, model, base, r) && IsRetry(w, cfg, streaming, model, base, q)
    ensures r == q
  {
    RetryAttemptsUnique(w, cfg, streaming, model, base, r, q);
    RetryAttemptsUnique(w, cfg, streaming, model, base, q, r);
  }

  /** One world admits one run: the visits, and hence the result and the error, are determined. */
  lemma {:induction false} RunUnique(
    w: World, cfg: RetryConfig, streaming: bool, all: seq<Candidate>, vs: seq<Visit>, us: seq<Visit>)
    requires IsRun(w, cfg, streaming, all, vs) && IsRun(w, cfg, streaming, all, us)
    ensures vs == us
  {
    if |vs| <= |us| {
      PrefixUnique(w, cfg, streaming, all, vs, us);
    } else {
      PrefixUnique(w, cfg, streaming, all, us, vs);
    }
  }

  lemma {:induction false} WalkPrefix(
    w: World, cfg: RetryConfig, streaming: bool, all: seq<Candidate>, vs: seq<Visit>, n: nat)
    requires Walk(w, all, vs) && Genuine(w, cfg, streaming, vs) && n <= |vs|
    ensures Walk(w, all, vs[..n]) && Genuine(w, cfg, streaming, vs[..n])
    ensures 0 < n < |vs| ==> !Returns(vs[n - 1])
    ensures n < |vs| ==> Left(w, all, vs[..n]) != []
  {
    if n == |vs| {
      assert vs[..n] == vs;
    } else if n == |vs| - 1 {
      assert vs[..n] == Front(vs);
    } else {
      WalkPrefix(w, cfg, streaming, all, Front(vs), n);
      assert Front(vs)[..n] == vs[..n];
    }
  }

  lemma {:induction false} SameVisits(
    w: World, cfg: RetryConfig, streaming: bool, all: seq<Candidate>, vs: seq<Visit>, us: seq<Visit>)
    requires Walk(w, all, vs) && Genuine(w, cfg, streaming, vs)
    requires Walk(w, all, us) && Genuine(w, cfg, streaming, us) && |vs| == |us|
    ensures vs == us
  {
    if vs != [] {
      SameVisits(w, cfg, streaming, all, Front(vs), Front(us));
      var v, u := Last(vs), Last(us);
      if v.Tried? {
        RetryUnique(w, cfg, streaming, v.candidate.model, v.base, v.outcome, u.outcome);
      }
      assert vs == Front(vs) + [v] && us == Front(us) + [u];
    }
  }

  lemma {:induction false} PrefixUnique(
    w: World, cfg: RetryConfig, streaming: bool, all: seq<Candidate>, vs: seq<Visit>, us: seq<Visit>)
    requires IsRun(w, cfg, streaming, all, vs) && IsRun(w, cfg, streaming, all, us) && |vs| <= |us|
    ensures vs == us
  {
    WalkPrefix(w, cfg, streaming, all, us, |vs|);
    SameVisits(w, cfg, streaming, all, vs, us[..|vs|]);
    assert Last(vs) == us[|vs| - 1];
  }
}
