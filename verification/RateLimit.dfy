/** The sliding-window rate limiter. Time is an integer that does not go back; the limits are fixed
    during a run. Check indexes an empty window when a single request costs more than the token limit:
    that is modelled as `Panic`. */
module RateLimit {
  import opened Seqs

  datatype Hit = Hit(at: int, tokens: int)
  datatype Limits = Limits(maxReq: int, maxTok: int, window: int)
  datatype Verdict = Allowed(remaining: int) | Denied(retryAfter: int) | Panic

  /** Drop the entries before the cutoff from the front. */
  function Purge(w: seq<Hit>, cutoff: int): (r: seq<Hit>)
    ensures |r| <= |w|
    decreases |w|
  {
    if w != [] && w[0].at < cutoff then Purge(w[1..], cutoff) else w
  }

  function SumTokens(w: seq<Hit>): int {
    if w == [] then 0 else SumTokens(Front(w)) + Last(w).tokens
  }

  /** The decision on a purged window. */
  function Decide(l: Limits, w: seq<Hit>, cost: int, now: int): Verdict {
    if l.maxReq > 0 && |w| >= l.maxReq then Denied(l.window - (now - w[0].at))
    else if l.maxTok > 0 && SumTokens(w) + cost > l.maxTok then
      if w == [] then Panic else Denied(l.window - (now - w[0].at))
    else Allowed(if l.maxReq > 0 then l.maxReq - |w| - 1 else 0)
  }

  function Unlimited(l: Limits): bool {
    l.maxReq == 0 && l.maxTok == 0
  }

  class Limiter {
    const limits: Limits
    var windows: map<string, seq<Hit>>

    constructor (maxReq: int, maxTok: int, window: int)
      ensures limits == Limits(maxReq, maxTok, if window <= 0 then 60_000_000_000 else window) && windows == map[]
    {
      limits, windows := Limits(maxReq, maxTok, if window <= 0 then 60_000_000_000 else window), map[];
    }

    method Check(key: string, cost: int, now: int) returns (v: Verdict)
      modifies this
      ensures windows == Served(limits, old(windows), Request(key, Action.Check(now, cost)))
      ensures Unlimited(limits) ==> v == Allowed(0) && windows == old(windows)
      ensures !Unlimited(limits) ==>
                var w := Purge(WindowOf(old(windows), key), now - limits.window);
                windows == old(windows)[key := w] && v == Decide(limits, w, cost, now)
    {
      if limits.maxReq == 0 && limits.maxTok == 0 {
        return Allowed(0);
      }
      var cutoff := now - limits.window;
      var w := PurgeWindow(WindowOf(windows, key), cutoff);
      windows := windows[key := w];
      var reqCount := |w|;
      var tokCount := Tokens(w);
      if limits.maxReq > 0 && reqCount >= limits.maxReq {
        return Denied(limits.window - (now - w[0].at));
      }
      if limits.maxTok > 0 && tokCount + cost > limits.maxTok {
        if w == [] {
          return Panic;
        }
        return Denied(limits.window - (now - w[0].at));
      }
      var remaining := 0;
      if limits.maxReq > 0 {
        remaining := limits.maxReq - reqCount - 1;
      }
      return Allowed(remaining);
    }

    method Record(key: string, tokens: int, now: int)
      modifies this
      ensures windows == old(windows)[key := Purge(WindowOf(old(windows), key), now - limits.window) + [Hit(now, tokens)]]
      ensures windows == Served(limits, old(windows), Request(key, Action.Record(now, tokens)))
    {
      var w := PurgeWindow(WindowOf(windows, key), now - limits.window);
      windows := windows[key := w + [Hit(now, tokens)]];
    }
  }

  function WindowOf(m: map<string, seq<Hit>>, key: string): seq<Hit> {
    if key in m then m[key] else []
  }

  method PurgeWindow(w: seq<Hit>, cutoff: int) returns (r: seq<Hit>)
    ensures r == Purge(w, cutoff)
  {
    var i := 0;
    while i < |w| && w[i].at < cutoff
      invariant 0 <= i <= |w| && Purge(w, cutoff) == Purge(w[i..], cutoff)
    {
      assert w[i..][1..] == w[i + 1..];
      i := i + 1;
    }
    r := w[i..];
  }

  method Tokens(w: seq<Hit>) returns (n: int)
    ensures n == SumTokens(w)
  {
    n := 0;
    for i := 0 to |w|
      invariant n == SumTokens(w[..i])
    {
      assert Front(w[..i + 1]) == w[..i];
      n := n + w[i].tokens;
    }
    assert w[..|w|] == w;
  }

  // ----- the window is exact

  predicate Sorted(w: seq<Hit>) {
    forall i, j :: 0 <= i < j < |w| ==> w[i].at <= w[j].at
  }

  function Since(t: int): Hit -> bool {
    (h: Hit) => h.at >= t
  }

  function Within(lo: int, hi: int): Hit -> bool {
    (h: Hit) => lo <= h.at <= hi
  }

  lemma {:induction false} FilterFirst(p: Hit -> bool, w: seq<Hit>)
    requires w != []
    ensures Filter(p, w) == if p(w[0]) then [w[0]] + Filter(p, w[1..]) else Filter(p, w[1..])
  {
    assert w == [w[0]] + w[1..];
    FilterConcat(p, [w[0]], w[1..]);
    assert Front([w[0]]) == [];
    assert [] + Filter(p, w[1..]) == Filter(p, w[1..]);
  }

  /** On an ordered window, dropping from the front is filtering. */
  lemma {:induction false} PurgeIsFilter(w: seq<Hit>, cutoff: int)
    requires Sorted(w)
    ensures Purge(w, cutoff) == Filter(Since(cutoff), w)
    decreases |w|
  {
    if w != [] && w[0].at < cutoff {
      PurgeIsFilter(w[1..], cutoff);
      FilterFirst(Since(cutoff), w);
    } else {
      FilterAll(Since(cutoff), w);
    }
  }

  lemma {:induction false} FilterSorted(p: Hit -> bool, w: seq<Hit>)
    requires Sorted(w)
    ensures Sorted(Filter(p, w))
  {
    if w != [] {
      FilterSorted(p, Front(w));
      FilterBounded(p, Front(w), Last(w).at);
      SortedSnoc(Filter(p, Front(w)), Last(w));
    }
  }

  lemma FilterBounded(p: Hit -> bool, w: seq<Hit>, at: int)
    requires UpTo(w, at)
    ensures UpTo(Filter(p, w), at)
  {
    forall i | 0 <= i < |Filter(p, w)| ensures Filter(p, w)[i].at <= at {
      FilterIn(p, w, Filter(p, w)[i]);
    }
  }

  lemma SortedSnoc(w: seq<Hit>, h: Hit)
    requires Sorted(w) && UpTo(w, h.at)
    ensures Sorted(w + [h])
  {
  }

  // ----- runs on one key

  datatype Action = Check(at: int, cost: int) | Record(at: int, tokens: int)

  /** The window and the full log of what was ever recorded. */
  datatype State = State(entries: seq<Hit>, log: seq<Hit>, now: int)

  function Step(l: Limits, s: State, a: Action): State {
    match a
    case Check(at, _) => if Unlimited(l) then s.(now := at) else State(Purge(s.entries, at - l.window), s.log, at)
    case Record(at, tokens) =>
      State(Purge(s.entries, at - l.window) + [Hit(at, tokens)], s.log + [Hit(at, tokens)], at)
  }

  function After(l: Limits, start: int, run: seq<Action>): State {
    if run == [] then State([], [], start) else Step(l, After(l, start, Front(run)), Last(run))
  }

  ghost predicate Ordered(l: Limits, start: int, run: seq<Action>) {
    run != [] ==> Ordered(l, start, Front(run)) && After(l, start, Front(run)).now <= Last(run).at
  }

  /** The decision on a Check in state s. */
  function Answer(l: Limits, s: State, a: Action): Verdict
    requires a.Check?
  {
    if Unlimited(l) then Allowed(0) else Decide(l, Purge(s.entries, a.at - l.window), a.cost, a.at)
  }

  /** The window holds everything recorded within the last `window`, and what it holds besides is older. */
  ghost predicate Exact(l: Limits, s: State) {
    && Sorted(s.log) && Sorted(s.entries)
    && UpTo(s.log, s.now)
    && SameSince(s.entries, s.log, s.now - l.window)
  }

  ghost predicate UpTo(w: seq<Hit>, now: int) {
    forall i :: 0 <= i < |w| ==> w[i].at <= now
  }

  ghost predicate SameSince(w: seq<Hit>, log: seq<Hit>, from: int) {
    forall t :: t >= from ==> Filter(Since(t), w) == Filter(Since(t), log)
  }

  /** At any time, the purged window is the full log restricted to the last `window`. */
  lemma PurgedIsLog(l: Limits, s: State, at: int)
    requires Exact(l, s) && s.now <= at
    ensures Purge(s.entries, at - l.window) == Filter(Since(at - l.window), s.log)
  {
    PurgeIsFilter(s.entries, at - l.window);
  }

  lemma PurgedSame(log: seq<Hit>, cutoff: int)
    ensures SameSince(Filter(Since(cutoff), log), log, cutoff)
  {
    forall t | t >= cutoff ensures Filter(Since(t), Filter(Since(cutoff), log)) == Filter(Since(t), log) {
      FilterTwice(Since(cutoff), Since(t), log);
    }
  }

  lemma WindowOfLogExact(l: Limits, log: seq<Hit>, at: int)
    requires Sorted(log) && UpTo(log, at)
    ensures Exact(l, State(Filter(Since(at - l.window), log), log, at))
  {
    FilterSorted(Since(at - l.window), log);
    PurgedSame(log, at - l.window);
  }

  lemma PurgeExact(l: Limits, s: State, at: int)
    requires Exact(l, s) && s.now <= at
    ensures Exact(l, State(Purge(s.entries, at - l.window), s.log, at))
  {
    PurgedIsLog(l, s, at);
    WindowOfLogExact(l, s.log, at);
  }

  lemma RecordExact(l: Limits, w: seq<Hit>, log: seq<Hit>, h: Hit)
    requires Exact(l, State(w, log, h.at)) && UpTo(w, h.at)
    ensures Exact(l, State(w + [h], log + [h], h.at))
  {
    SortedSnoc(log, h);
    SortedSnoc(w, h);
    forall t | t >= h.at - l.window ensures Filter(Since(t), w + [h]) == Filter(Since(t), log + [h]) {
      FilterSnoc(Since(t), w, h);
      FilterSnoc(Since(t), log, h);
    }
  }

  lemma WaitExact(l: Limits, s: State, at: int)
    requires Exact(l, s) && s.now <= at
    ensures Exact(l, s.(now := at))
  {
  }

  lemma PurgeAndRecordExact(l: Limits, s: State, h: Hit)
    requires Exact(l, s) && s.now <= h.at
    ensures Exact(l, State(Purge(s.entries, h.at - l.window) + [h], s.log + [h], h.at))
  {
    var w := Purge(s.entries, h.at - l.window);
    PurgeExact(l, s, h.at);
    PurgedIsLog(l, s, h.at);
    FilterBounded(Since(h.at - l.window), s.log, h.at);
    RecordExact(l, w, s.log, h);
  }

  lemma StepExact(l: Limits, s: State, a: Action)
    requires Exact(l, s) && s.now <= a.at
    ensures Exact(l, Step(l, s, a))
  {
    if a.Record? {
      PurgeAndRecordExact(l, s, Hit(a.at, a.tokens));
    } else if Unlimited(l) {
      WaitExact(l, s, a.at);
    } else {
      PurgeExact(l, s, a.at);
    }
  }

  lemma {:induction false} RunExact(l: Limits, start: int, run: seq<Action>)
    requires Ordered(l, start, run)
    ensures Exact(l, After(l, start, run))
  {
    if run != [] {
      RunExact(l, start, Front(run));
      StepExact(l, After(l, start, Front(run)), Last(run));
    }
  }

  /** The sliding window is exact: in every run the window that a Check looks at is everything recorded
      in the closed interval [now - window, now]. */
  lemma WindowExact(l: Limits, start: int, run: seq<Action>, at: int)
    requires Ordered(l, start, run) && After(l, start, run).now <= at
    ensures var s := After(l, start, run); Purge(s.entries, at - l.window) == Filter(Since(at - l.window), s.log)
  {
    RunExact(l, start, run);
    PurgedIsLog(l, After(l, start, run), at);
  }

  // ----- what the limits guarantee

  /** Every Record directly follows an allowed Check, and spends no more than that Check asked for. */
  ghost predicate Disciplined(l: Limits, start: int, run: seq<Action>) {
    run != [] ==>
      && Disciplined(l, start, Front(run))
      && (Last(run).Record? ==>
            && Front(run) != [] && Last(Front(run)).Check?
            && Answer(l, After(l, start, Front(Front(run))), Last(Front(run))).Allowed?
            && 0 <= Last(run).tokens <= Last(Front(run)).cost)
  }

  lemma {:induction false} FilterMonotone(p: Hit -> bool, q: Hit -> bool, w: seq<Hit>)
    requires forall h :: p(h) ==> q(h)
    requires forall i :: 0 <= i < |w| ==> w[i].tokens >= 0
    ensures |Filter(p, w)| <= |Filter(q, w)|
    ensures SumTokens(Filter(p, w)) <= SumTokens(Filter(q, w))
  {
    if w != [] {
      FilterMonotone(p, q, Front(w));
      assert w[|w| - 1].tokens >= 0;
      SumSnoc(Filter(p, Front(w)), Last(w));
      SumSnoc(Filter(q, Front(w)), Last(w));
    }
  }

  lemma SumSnoc(w: seq<Hit>, h: Hit)
    ensures SumTokens(w + [h]) == SumTokens(w) + h.tokens
  {
    assert Front(w + [h]) == w;
  }

  /** The records of the log in a closed interval of the window's length. */
  function In(l: Limits, s: State, lo: int): seq<Hit> {
    Filter(Within(lo, lo + l.window), s.log)
  }

  ghost predicate Bounded(l: Limits, w: seq<Hit>) {
    (l.maxReq > 0 ==> |w| <= l.maxReq) && (l.maxTok > 0 ==> SumTokens(w) <= l.maxTok)
  }

  ghost predicate NonNegative(w: seq<Hit>) {
    forall i :: 0 <= i < |w| ==> w[i].tokens >= 0
  }

  lemma AllowedFits(l: Limits, w: seq<Hit>, cost: int, now: int)
    requires Unlimited(l) || Decide(l, w, cost, now).Allowed?
    ensures l.maxReq > 0 ==> |w| < l.maxReq
    ensures l.maxTok > 0 ==> SumTokens(w) + cost <= l.maxTok
  {
  }

  /** One admitted request: whatever interval its record falls into held less than the limits. */
  lemma AdmittedFits(l: Limits, s: State, c: Action, h: Hit, lo: int)
    requires Exact(l, s) && c.Check? && s.now <= c.at <= h.at && Answer(l, s, c).Allowed?
    requires 0 <= h.tokens <= c.cost && NonNegative(s.log) && lo <= h.at <= lo + l.window
    ensures Bounded(l, Filter(Within(lo, lo + l.window), s.log) + [h])
  {
    PurgedIsLog(l, s, c.at);
    AllowedFits(l, Filter(Since(c.at - l.window), s.log), c.cost, c.at);
    FilterMonotone(Within(lo, lo + l.window), Since(c.at - l.window), s.log);
    SumSnoc(Filter(Within(lo, lo + l.window), s.log), h);
  }

  lemma RecordFits(l: Limits, s: State, c: Action, r: Action, lo: int)
    requires Exact(l, s) && c.Check? && r.Record? && s.now <= c.at <= r.at && Answer(l, s, c).Allowed?
    requires 0 <= r.tokens <= c.cost && NonNegative(s.log) && Bounded(l, In(l, s, lo))
    ensures Bounded(l, In(l, Step(l, Step(l, s, c), r), lo))
  {
    var h := Hit(r.at, r.tokens);
    if lo <= h.at <= lo + l.window {
      AdmittedFits(l, s, c, h, lo);
    }
    StillBounded(l, s.log, h, lo);
  }

  lemma StillBounded(l: Limits, log: seq<Hit>, h: Hit, lo: int)
    requires var w := Filter(Within(lo, lo + l.window), log);
             Bounded(l, w) && (lo <= h.at <= lo + l.window ==> Bounded(l, w + [h]))
    ensures Bounded(l, Filter(Within(lo, lo + l.window), log + [h]))
  {
    FilterSnoc(Within(lo, lo + l.window), log, h);
  }

  lemma {:induction false} LogNonNegative(l: Limits, start: int, run: seq<Action>)
    requires Disciplined(l, start, run)
    ensures NonNegative(After(l, start, run).log)
  {
    if run != [] {
      LogNonNegative(l, start, Front(run));
    }
  }

  /** No closed interval of the window's length ever holds more than maxReq records or maxTok tokens. */
  lemma {:induction false} LimitsHold(l: Limits, start: int, run: seq<Action>, lo: int)
    requires Ordered(l, start, run) && Disciplined(l, start, run)
    ensures Bounded(l, In(l, After(l, start, run), lo))
  {
    if run == [] {
    } else if Last(run).Check? {
      LimitsHold(l, start, Front(run), lo);
    } else {
      var before := Front(Front(run));
      LimitsHold(l, start, before, lo);
      RunExact(l, start, before);
      LogNonNegative(l, start, before);
      RecordFits(l, After(l, start, before), Last(Front(run)), Last(run), lo);
    }
  }

  /** A denial names a wait between zero and the whole window. */
  lemma RetryAfterInRange(l: Limits, start: int, run: seq<Action>, c: Action)
    requires Ordered(l, start, run) && c.Check? && After(l, start, run).now <= c.at
    requires Answer(l, After(l, start, run), c).Denied?
    ensures 0 <= Answer(l, After(l, start, run), c).retryAfter <= l.window
  {
    var s := After(l, start, run);
    RunExact(l, start, run);
    RetryAfterOf(l, s, c);
  }

  lemma RetryAfterOf(l: Limits, s: State, c: Action)
    requires Exact(l, s) && c.Check? && s.now <= c.at && Answer(l, s, c).Denied?
    ensures 0 <= Answer(l, s, c).retryAfter <= l.window
  {
    PurgedIsLog(l, s, c.at);
    OldestInWindow(s.log, c.at - l.window, c.at);
  }

  lemma OldestInWindow(log: seq<Hit>, cutoff: int, now: int)
    requires Filter(Since(cutoff), log) != [] && UpTo(log, now)
    ensures cutoff <= Filter(Since(cutoff), log)[0].at <= now
  {
    FilterIn(Since(cutoff), log, Filter(Since(cutoff), log)[0]);
  }

  ghost predicate Before(log: seq<Hit>, t: int) {
    forall h :: h in log ==> h.at < t
  }

  lemma NothingSince(log: seq<Hit>, t: int)
    ensures Filter(Since(t), log) == [] <==> Before(log, t)
  {
    if Filter(Since(t), log) != [] {
      FilterIn(Since(t), log, Filter(Since(t), log)[0]);
    }
    forall h | h in log && h.at >= t ensures h in Filter(Since(t), log) {
      FilterIn(Since(t), log, h);
    }
  }

  lemma PanicsOnEmpty(l: Limits, w: seq<Hit>, cost: int, now: int)
    ensures Decide(l, w, cost, now).Panic? <==> l.maxTok > 0 && cost > l.maxTok && w == []
  {
  }

  lemma PanicsAt(l: Limits, s: State, c: Action)
    requires Exact(l, s) && c.Check? && s.now <= c.at
    ensures Answer(l, s, c).Panic? <==> l.maxTok > 0 && c.cost > l.maxTok && Before(s.log, c.at - l.window)
  {
    PurgedIsLog(l, s, c.at);
    NothingSince(s.log, c.at - l.window);
    PanicsOnEmpty(l, Filter(Since(c.at - l.window), s.log), c.cost, c.at);
  }

  /** In every run the token check panics exactly when the request alone is over the limit and nothing was
      recorded in the last `window`. */
  lemma PanicsIff(l: Limits, start: int, run: seq<Action>, c: Action)
    requires Ordered(l, start, run) && c.Check? && After(l, start, run).now <= c.at
    ensures Answer(l, After(l, start, run), c).Panic? <==>
            l.maxTok > 0 && c.cost > l.maxTok && Before(After(l, start, run).log, c.at - l.window)
  {
    RunExact(l, start, run);
    PanicsAt(l, After(l, start, run), c);
  }

  /** At least n entries survive a purge exactly when the n-th from the end does. */
  lemma {:induction false} PurgedLength(w: seq<Hit>, cutoff: int, n: nat)
    requires Sorted(w) && 0 < n <= |w|
    ensures |Purge(w, cutoff)| >= n <==> w[|w| - n].at >= cutoff
    decreases |w|
  {
    if w[0].at < cutoff && n < |w| {
      PurgedLength(w[1..], cutoff, n);
    }
  }

  /** The request limit alone denies check d. */
  predicate Full(l: Limits, s: State, d: Action) {
    0 < l.maxReq <= |Purge(s.entries, d.at - l.window)|
  }

  /** How long a request denied by a full request window stays denied when nothing is recorded since: up
      to and including the moment the entry maxReq from the end is one window old. RetryAfter names
      that moment of the oldest entry, so it always names a moment that is denied again. */
  lemma RetryAfterIsShort(l: Limits, s: State, c: Action, d: Action)
    requires Sorted(s.entries) && c.Check? && d.Check? && c.at <= d.at && Full(l, s, c)
    ensures var w, next := Purge(s.entries, c.at - l.window), Step(l, s, c);
            && Answer(l, s, c).Denied? && c.at + Answer(l, s, c).retryAfter == w[0].at + l.window
            && (Full(l, next, d) <==> d.at <= w[|w| - l.maxReq].at + l.window)
            && (d.at <= c.at + Answer(l, s, c).retryAfter ==> Answer(l, next, d).Denied?)
  {
    var w := Purge(s.entries, c.at - l.window);
    PurgeIsFilter(s.entries, c.at - l.window);
    FilterSorted(Since(c.at - l.window), s.entries);
    PurgedLength(w, d.at - l.window, l.maxReq);
  }

  lemma PurgeNothing(w: seq<Hit>, cutoff: int)
    requires w != [] && w[0].at >= cutoff
    ensures Purge(w, cutoff) == w
  {
  }

  /** For every denial, by either limit: asked again for no less, with nothing recorded since, the request is
      denied up to and including the moment RetryAfter names. */
  lemma DeniedAgain(l: Limits, s: State, c: Action, d: Action)
    requires c.Check? && d.Check? && Answer(l, s, c).Denied? && c.cost <= d.cost
    requires c.at <= d.at <= c.at + Answer(l, s, c).retryAfter
    ensures Answer(l, Step(l, s, c), d).Denied?
  {
    PurgeNothing(Purge(s.entries, c.at - l.window), d.at - l.window);
  }

  /** Records and tokens of the last `window`. */
  function Recent(l: Limits, s: State, at: int): seq<Hit> {
    Filter(Since(at - l.window), s.log)
  }

  lemma AllowedAt(l: Limits, s: State, c: Action)
    requires Exact(l, s) && c.Check? && s.now <= c.at
    ensures var w := Recent(l, s, c.at);
            && (Answer(l, s, c).Allowed? <==>
                (l.maxReq <= 0 || |w| < l.maxReq) && (l.maxTok <= 0 || SumTokens(w) + c.cost <= l.maxTok))
            && (Answer(l, s, c).Allowed? ==>
                Answer(l, s, c).remaining == if l.maxReq > 0 then l.maxReq - 1 - |w| else 0)
  {
    PurgedIsLog(l, s, c.at);
  }

  /** In every run a request is allowed exactly when fewer than maxReq requests were recorded in the last window and
      the tokens recorded there leave room for its cost; it is told how many more may follow. */
  lemma AllowedIff(l: Limits, start: int, run: seq<Action>, c: Action)
    requires Ordered(l, start, run) && c.Check? && After(l, start, run).now <= c.at
    ensures var s := After(l, start, run); var w := Recent(l, s, c.at);
            && (Answer(l, s, c).Allowed? <==>
                (l.maxReq <= 0 || |w| < l.maxReq) && (l.maxTok <= 0 || SumTokens(w) + c.cost <= l.maxTok))
            && (Answer(l, s, c).Allowed? ==>
                Answer(l, s, c).remaining == if l.maxReq > 0 then l.maxReq - 1 - |w| else 0)
  {
    RunExact(l, start, run);
    AllowedAt(l, After(l, start, run), c);
  }

  // ----- when a denial ends

  lemma {:induction false} SumFirst(w: seq<Hit>)
    requires w != []
    ensures SumTokens(w) == w[0].tokens + SumTokens(w[1..])
  {
    if |w| > 1 {
      SumFirst(Front(w));
      assert Front(w)[1..] == Front(w[1..]);
    }
  }

  lemma {:induction false} PurgeSum(w: seq<Hit>, cutoff: int)
    requires NonNegative(w)
    ensures SumTokens(Purge(w, cutoff)) <= SumTokens(w)
    decreases |w|
  {
    if w != [] && w[0].at < cutoff {
      PurgeSum(w[1..], cutoff);
      SumFirst(w);
    }
  }

  /** The last entry that has to leave the window before a request of this cost fits. */
  function Blocking(w: seq<Hit>, cost: int, maxTok: int): (j: nat)
    requires cost <= maxTok < SumTokens(w) + cost
    ensures j < |w|
    decreases |w|
  {
    if SumTokens(w[1..]) + cost > maxTok then 1 + Blocking(w[1..], cost, maxTok) else 0
  }

  /** The tokens left by a purge are too many exactly while the blocking entry is among them. */
  lemma {:induction false} BlockedIff(w: seq<Hit>, cutoff: int, cost: int, maxTok: int)
    requires Sorted(w) && NonNegative(w) && cost <= maxTok < SumTokens(w) + cost
    ensures SumTokens(Purge(w, cutoff)) + cost > maxTok <==> w[Blocking(w, cost, maxTok)].at >= cutoff
    decreases |w|
  {
    if w[0].at < cutoff {
      if SumTokens(w[1..]) + cost > maxTok {
        BlockedIff(w[1..], cutoff, cost, maxTok);
      } else {
        PurgeSum(w[1..], cutoff);
      }
    }
  }

  /** A window that the request limit, or the token limit, still finds full at time t. */
  predicate CountBlocks(l: Limits, w: seq<Hit>, t: int) {
    0 < l.maxReq <= |w| && t <= w[|w| - l.maxReq].at + l.window
  }

  predicate TokensBlock(l: Limits, w: seq<Hit>, cost: int, t: int)
    requires l.maxTok > 0 ==> cost <= l.maxTok
  {
    0 < l.maxTok < SumTokens(w) + cost && t <= w[Blocking(w, cost, l.maxTok)].at + l.window
  }

  lemma CountBlocksIff(l: Limits, w: seq<Hit>, t: int)
    requires Sorted(w)
    ensures 0 < l.maxReq <= |Purge(w, t - l.window)| <==> CountBlocks(l, w, t)
  {
    if 0 < l.maxReq <= |w| {
      PurgedLength(w, t - l.window, l.maxReq);
    }
  }

  lemma TokensBlockIff(l: Limits, w: seq<Hit>, cost: int, t: int)
    requires Sorted(w) && NonNegative(w) && (l.maxTok > 0 ==> cost <= l.maxTok)
    ensures 0 < l.maxTok < SumTokens(Purge(w, t - l.window)) + cost <==> TokensBlock(l, w, cost, t)
  {
    if 0 < l.maxTok {
      PurgeSum(w, t - l.window);
      if l.maxTok < SumTokens(w) + cost {
        BlockedIff(w, t - l.window, cost, l.maxTok);
      }
    }
  }

  /** When a denial ends, by either limit: with nothing recorded since, a request that could ever be allowed is
      denied exactly until the entry maxReq from the end and the blocking entry of its cost are both older
      than the window. */
  lemma DenialEnds(l: Limits, s: State, c: Action, d: Action)
    requires Sorted(s.entries) && NonNegative(s.entries) && c.Check? && d.Check? && c.at <= d.at
    requires l.maxTok > 0 ==> d.cost <= l.maxTok
    ensures var w := Purge(s.entries, c.at - l.window);
            && !Answer(l, Step(l, s, c), d).Panic?
            && (Answer(l, Step(l, s, c), d).Denied? <==> CountBlocks(l, w, d.at) || TokensBlock(l, w, d.cost, d.at))
  {
    var w := Purge(s.entries, c.at - l.window);
    PurgeKeeps(s.entries, c.at - l.window);
    CountBlocksIff(l, w, d.at);
    TokensBlockIff(l, w, d.cost, d.at);
  }

  lemma {:induction false} PurgeKeeps(w: seq<Hit>, cutoff: int)
    requires Sorted(w) && NonNegative(w)
    ensures Sorted(Purge(w, cutoff)) && NonNegative(Purge(w, cutoff))
    decreases |w|
  {
    if w != [] && w[0].at < cutoff {
      PurgeKeeps(w[1..], cutoff);
    }
  }

  // ----- overlapping requests

  /** Requests allowed but not yet recorded. */
  function Outstanding(l: Limits, start: int, run: seq<Action>): int {
    if run == [] then 0 else
      Outstanding(l, start, Front(run)) +
      match Last(run)
      case Check(_, _) => if Answer(l, After(l, start, Front(run)), Last(run)).Allowed? then 1 else 0
      case Record(_, _) => -1
  }

  /** Every Record is for an allowed Check, and at most m are outstanding at any time. */
  ghost predicate Overlapping(l: Limits, start: int, run: seq<Action>, m: nat) {
    0 <= Outstanding(l, start, run) <= m && (run != [] ==> Overlapping(l, start, Front(run), m))
  }

  lemma {:induction false} FilterCountMonotone(p: Hit -> bool, q: Hit -> bool, w: seq<Hit>)
    requires forall h :: p(h) ==> q(h)
    ensures |Filter(p, w)| <= |Filter(q, w)|
  {
    if w != [] {
      FilterCountMonotone(p, q, Front(w));
    }
  }

  /** With m requests overlapping, an interval holds at most n records, and while it is not over, at most n
      records and outstanding requests together, where n is maxReq + m - 1. */
  ghost predicate Roomy(l: Limits, s: State, outstanding: int, lo: int, m: nat) {
    && |In(l, s, lo)| <= l.maxReq + m - 1
    && (s.now <= lo + l.window ==> |In(l, s, lo)| + outstanding <= l.maxReq + m - 1)
  }

  lemma CheckRoomy(l: Limits, s: State, a: Action, outstanding: int, lo: int, m: nat)
    requires l.maxReq > 0 && Exact(l, s) && a.Check? && s.now <= a.at && Roomy(l, s, outstanding, lo, m)
    requires Answer(l, s, a).Allowed? ==> outstanding + 1 <= m
    ensures Roomy(l, Step(l, s, a), outstanding + (if Answer(l, s, a).Allowed? then 1 else 0), lo, m)
  {
    if a.at <= lo + l.window && Answer(l, s, a).Allowed? {
      PurgedIsLog(l, s, a.at);
      FilterCountMonotone(Within(lo, lo + l.window), Since(a.at - l.window), s.log);
    }
  }

  lemma RecordRoomy(l: Limits, s: State, a: Action, outstanding: int, lo: int, m: nat)
    requires a.Record? && s.now <= a.at && Roomy(l, s, outstanding, lo, m) && outstanding >= 1
    ensures Roomy(l, Step(l, s, a), outstanding - 1, lo, m)
  {
    FilterSnoc(Within(lo, lo + l.window), s.log, Hit(a.at, a.tokens));
  }

  lemma {:induction false} RunRoomy(l: Limits, start: int, run: seq<Action>, lo: int, m: nat)
    requires l.maxReq > 0 && Ordered(l, start, run) && Overlapping(l, start, run, m)
    ensures Roomy(l, After(l, start, run), Outstanding(l, start, run), lo, m)
  {
    if run != [] {
      RunRoomy(l, start, Front(run), lo, m);
      RunExact(l, start, Front(run));
      if Last(run).Check? {
        CheckRoomy(l, After(l, start, Front(run)), Last(run), Outstanding(l, start, Front(run)), lo, m);
      } else {
        RecordRoomy(l, After(l, start, Front(run)), Last(run), Outstanding(l, start, Front(run)), lo, m);
      }
    }
  }

  /** When at most m requests overlap, no closed interval of the window's length holds more than
      maxReq + m - 1 records, however late they are recorded. */
  lemma OverlapBounded(l: Limits, start: int, run: seq<Action>, lo: int, m: nat)
    requires l.maxReq > 0 && Ordered(l, start, run) && Overlapping(l, start, run, m)
    ensures |In(l, After(l, start, run), lo)| <= l.maxReq + m - 1
  {
    RunRoomy(l, start, run, lo, m);
  }

  // ----- tokens of overlapping requests

  function Total(costs: seq<int>): int {
    if costs == [] then 0 else Total(Front(costs)) + Last(costs)
  }

  lemma {:induction false} TotalConcat(a: seq<int>, b: seq<int>)
    ensures Total(a + b) == Total(a) + Total(b)
  {
    if b == [] {
      assert a + b == a;
    } else {
      assert Front(a + b) == a + Front(b);
      TotalConcat(a, Front(b));
    }
  }

  lemma TotalRemove(costs: seq<int>, i: nat)
    requires i < |costs|
    ensures Total(RemoveAt(costs, i)) == Total(costs) - costs[i]
  {
    SplitAt(costs, i);
    TotalConcat(costs[..i] + [costs[i]], costs[i + 1..]);
    TotalConcat(costs[..i], costs[i + 1..]);
    assert Front(costs[..i] + [costs[i]]) == costs[..i];
  }

  /** What the outstanding requests asked for, oldest first. The n-th action of the run, if it is a Record,
      answers the outstanding request number `which[n]`. */
  function Costs(l: Limits, start: int, run: seq<Action>, which: seq<nat>): seq<int>
    requires |which| == |run|
  {
    if run == [] then [] else
      var costs := Costs(l, start, Front(run), Front(which));
      match Last(run)
      case Check(_, cost) => if Answer(l, After(l, start, Front(run)), Last(run)).Allowed? then costs + [cost] else costs
      case Record(_, _) => if Last(which) < |costs| then RemoveAt(costs, Last(which)) else costs
  }

  /** Every Record spends at most what the request it answers asked for, and no request is allowed while others
      that ask for more than d together are outstanding. */
  ghost predicate Answering(l: Limits, start: int, run: seq<Action>, which: seq<nat>, d: nat)
    requires |which| == |run|
  {
    run != [] ==>
      && Answering(l, start, Front(run), Front(which), d)
      && var costs := Costs(l, start, Front(run), Front(which));
      match Last(run)
      case Check(_, cost) => Answer(l, After(l, start, Front(run)), Last(run)).Allowed? ==> cost >= 0 && Total(costs) <= d
      case Record(_, tokens) => Last(which) < |costs| && 0 <= tokens <= costs[Last(which)]
  }

  /** An interval holds at most maxTok + d tokens, and while it is not over, with what is outstanding. */
  ghost predicate Affordable(l: Limits, s: State, costs: seq<int>, lo: int, d: nat) {
    && SumTokens(In(l, s, lo)) <= l.maxTok + d
    && (s.now <= lo + l.window ==> SumTokens(In(l, s, lo)) + Total(costs) <= l.maxTok + d)
    && NonNegative(s.log) && Payable(costs)
  }

  ghost predicate Payable(costs: seq<int>) {
    forall i :: 0 <= i < |costs| ==> costs[i] >= 0
  }

  lemma CheckAffordable(l: Limits, s: State, a: Action, costs: seq<int>, lo: int, d: nat)
    requires l.maxTok > 0 && Exact(l, s) && a.Check? && s.now <= a.at && Affordable(l, s, costs, lo, d)
    requires Answer(l, s, a).Allowed? && a.cost >= 0 && Total(costs) <= d
    ensures Affordable(l, Step(l, s, a), costs + [a.cost], lo, d)
  {
    assert Front(costs + [a.cost]) == costs;
    if a.at <= lo + l.window {
      PurgedIsLog(l, s, a.at);
      FilterMonotone(Within(lo, lo + l.window), Since(a.at - l.window), s.log);
    }
  }

  lemma RecordedSum(l: Limits, s: State, a: Action, lo: int)
    requires a.Record?
    ensures SumTokens(In(l, Step(l, s, a), lo)) ==
            SumTokens(In(l, s, lo)) + if lo <= a.at <= lo + l.window then a.tokens else 0
  {
    FilterSnoc(Within(lo, lo + l.window), s.log, Hit(a.at, a.tokens));
    SumSnoc(In(l, s, lo), Hit(a.at, a.tokens));
  }

  lemma RecordedNonNegative(l: Limits, s: State, a: Action)
    requires a.Record? && a.tokens >= 0 && NonNegative(s.log)
    ensures NonNegative(Step(l, s, a).log)
  {
  }

  lemma RemovePayable(costs: seq<int>, i: nat)
    requires i < |costs| && Payable(costs)
    ensures Payable(RemoveAt(costs, i))
  {
  }

  lemma {:induction false} TotalNonNegative(costs: seq<int>)
    requires Payable(costs)
    ensures Total(costs) >= 0
  {
    if costs != [] {
      TotalNonNegative(Front(costs));
    }
  }

  lemma RecordAffordable(l: Limits, s: State, a: Action, costs: seq<int>, i: nat, lo: int, d: nat)
    requires a.Record? && s.now <= a.at && Affordable(l, s, costs, lo, d)
    requires i < |costs| && 0 <= a.tokens <= costs[i]
    ensures Affordable(l, Step(l, s, a), RemoveAt(costs, i), lo, d)
  {
    RecordedSum(l, s, a, lo);
    RecordedNonNegative(l, s, a);
    TotalRemove(costs, i);
    RemovePayable(costs, i);
    TotalNonNegative(RemoveAt(costs, i));
  }

  lemma {:induction false} RunAffordable(l: Limits, start: int, run: seq<Action>, which: seq<nat>, lo: int, d: nat)
    requires l.maxTok > 0 && Ordered(l, start, run) && |which| == |run| && Answering(l, start, run, which, d)
    ensures Affordable(l, After(l, start, run), Costs(l, start, run, which), lo, d)
  {
    if run != [] {
      var s, costs := After(l, start, Front(run)), Costs(l, start, Front(run), Front(which));
      RunAffordable(l, start, Front(run), Front(which), lo, d);
      RunExact(l, start, Front(run));
      if Last(run).Record? {
        RecordAffordable(l, s, Last(run), costs, Last(which), lo, d);
      } else if Answer(l, s, Last(run)).Allowed? {
        CheckAffordable(l, s, Last(run), costs, lo, d);
      }
    }
  }

  /** When requests overlap, no closed interval of the window's length holds more than maxTok tokens and what
      the others outstanding at an admission asked for, however late they are recorded and in whatever order.
      With one request at a time, d is zero. */
  lemma OverlapTokensBounded(l: Limits, start: int, run: seq<Action>, which: seq<nat>, lo: int, d: nat)
    requires l.maxTok > 0 && Ordered(l, start, run) && |which| == |run| && Answering(l, start, run, which, d)
    ensures SumTokens(In(l, After(l, start, run), lo)) <= l.maxTok + d
  {
    RunAffordable(l, start, run, which, lo, d);
  }

  // ----- many keys

  datatype Request = Request(key: string, a: Action)

  /** What a call does to the windows of all keys. */
  function Served(l: Limits, m: map<string, seq<Hit>>, q: Request): map<string, seq<Hit>> {
    var w := Purge(WindowOf(m, q.key), q.a.at - l.window);
    match q.a
    case Check(_, _) => if Unlimited(l) then m else m[q.key := w]
    case Record(at, tokens) => m[q.key := w + [Hit(at, tokens)]]
  }

  function WindowsAfter(l: Limits, run: seq<Request>): map<string, seq<Hit>> {
    if run == [] then map[] else Served(l, WindowsAfter(l, Front(run)), Last(run))
  }

  /** The calls on one key. */
  function CallsOn(run: seq<Request>, key: string): seq<Action> {
    if run == [] then []
    else if Last(run).key == key then CallsOn(Front(run), key) + [Last(run).a]
    else CallsOn(Front(run), key)
  }

  lemma AfterSnoc(l: Limits, start: int, run: seq<Action>, a: Action)
    ensures After(l, start, run + [a]) == Step(l, After(l, start, run), a)
  {
    assert Front(run + [a]) == run;
  }

  /** Keys are independent: the window of each is that of its own calls, so all results on runs hold for every key. */
  lemma {:induction false} KeysIndependent(l: Limits, start: int, run: seq<Request>, key: string)
    ensures WindowOf(WindowsAfter(l, run), key) == After(l, start, CallsOn(run, key)).entries
  {
    if run != [] {
      KeysIndependent(l, start, Front(run), key);
      if Last(run).key == key {
        AfterSnoc(l, start, CallsOn(Front(run), key), Last(run).a);
      }
    }
  }
}
