/** What a caller of the executor can tell from the providers' replies alone: how many attempts a retry loop
    makes and what it returns, where the candidate loop ends, and what its result reports. */
module ExecutorReports {
  import opened Seqs
  import opened Executor

  // ----- the retry loop

  /** Reply number n does not end a retry loop that has attempts left: the call failed, was neither cancelled
      nor rejected as a client error, gave the callback nothing, and the context survives the wait. */
  predicate TriesAgain(w: World, streaming: bool, model: string, n: nat) {
    var r := w.call(n, model);
    && r.failure.Some? && !r.failure.value.cancelled && !r.failure.value.client
    && (streaming ==> r.chunks == [])
    && w.context(n) == Running
  }

  lemma {:induction false} RetriesAre(w: World, streaming: bool, model: string, base: nat, n: nat)
    ensures Retries(w, streaming, model, base, n) <==> forall m :: base <= m < base + n ==> TriesAgain(w, streaming, model, m)
  {
    if n > 0 {
      RetriesAre(w, streaming, model, base, n - 1);
      assert TriesAgain(w, streaming, model, base + n - 1) <==>
             Retriable(streaming, w.call(base + n - 1, model)) && w.context(base + n - 1) == Running;
    }
  }

  /** The loop makes exactly n attempts, for 1 <= n <= maxAttempts, if and only if the n - 1 replies before
      let it try again, and the n-th does not, or is the last one allowed. */
  lemma AttemptsIff(w: World, cfg: RetryConfig, streaming: bool, model: string, base: nat, r: Retried, n: nat)
    requires IsRetry(w, cfg, streaming, model, base, r) && 1 <= n <= cfg.maxAttempts
    ensures r.attempts == n <==>
            && (forall m :: base <= m < base + n - 1 ==> TriesAgain(w, streaming, model, m))
            && (n == cfg.maxAttempts || !TriesAgain(w, streaming, model, base + n - 1))
  {
    RetriesAre(w, streaming, model, base, r.attempts - 1);
    assert r.attempts < cfg.maxAttempts ==> !TriesAgain(w, streaming, model, base + r.attempts - 1);
    assert n < r.attempts ==> TriesAgain(w, streaming, model, base + n - 1);
  }

  /** The loop ended during a wait: its last attempt failed, could have been repeated, and the context ended. */
  predicate Interrupted(w: World, cfg: RetryConfig, streaming: bool, model: string, base: nat, attempts: int)
    requires attempts >= 1
  {
    var r := w.call(base + attempts - 1, model);
    && attempts < cfg.maxAttempts && w.context(base + attempts - 1) != Running
    && r.failure.Some? && !r.failure.value.cancelled && !r.failure.value.client && (streaming ==> r.chunks == [])
  }

  /** What the loop returns, in terms of its last reply: its response if it is a successful chat, its error
      unless the context ended first, its chunks if it streams, and one wait between any two attempts. */
  lemma RetryReturns(w: World, cfg: RetryConfig, streaming: bool, model: string, base: nat, r: Retried)
    requires IsRetry(w, cfg, streaming, model, base, r) && 1 <= cfg.maxAttempts
    ensures 1 <= r.attempts <= cfg.maxAttempts
    ensures var last := w.call(base + r.attempts - 1, model);
            var cut := Interrupted(w, cfg, streaming, model, base, r.attempts);
            && (!streaming && last.failure.None? ==> r.response == Some(last.response))
            && (streaming || last.failure.Some? ==> r.response == None)
            && (!cut ==> r.failure == last.failure && |r.waits| == r.attempts - 1)
            && (cut ==>
                  && |r.waits| == r.attempts && r.failure.Some? && r.failure.value.cancelled && !r.failure.value.overflow
                  && r.failure.value.text ==
                     if w.context(base + r.attempts - 1).Canceled? then "context canceled" else "context deadline exceeded")
            && r.delivered == if streaming then last.chunks else []
  {
  }

  /** With no attempt allowed there is no call, no response and no error. */
  lemma NoAttempts(w: World, cfg: RetryConfig, streaming: bool, model: string, base: nat, r: Retried)
    requires IsRetry(w, cfg, streaming, model, base, r) && cfg.maxAttempts <= 0
    ensures r.attempts <= 0 && r.response == None && r.failure == None && r.delivered == [] && r.waits == []
  {
  }

  /** The waits are the backoffs of the attempts they follow. */
  lemma {:induction false} WaitsAre(cfg: RetryConfig, n: nat, k: nat)
    requires k < n
    ensures Waits(cfg, n)[k] == Backoff(cfg, k)
  {
    if k < n - 1 {
      WaitsAre(cfg, n - 1, k);
    }
  }

  // ----- the candidate loop

  /** A visit that ends the loop: a success, or a cancelled call. */
  predicate EndsLoop(v: Visit) {
    v.Tried? && (v.outcome.failure.None? || v.outcome.failure.value.cancelled)
  }

  /** A visit that makes the loop look for larger windows. */
  predicate TooLong(v: Visit) {
    v.Tried? && v.outcome.failure.Some? && v.outcome.failure.value.overflow && !v.outcome.failure.value.cancelled
  }

  /** The loop ends at the first visit that succeeds or is cancelled, and otherwise only with nothing left. */
  lemma RunEndsAt(w: World, cfg: RetryConfig, streaming: bool, all: seq<Candidate>, vs: seq<Visit>)
    requires IsRun(w, cfg, streaming, all, vs)
    ensures forall j :: 0 <= j < |vs| - 1 ==> !EndsLoop(vs[j])
    ensures EndsLoop(Last(vs)) || Left(w, all, vs) == []
  {
    forall j | 0 <= j < |vs| - 1 ensures !EndsLoop(vs[j]) {
      OnlyLastWins(w, all, vs, j);
    }
  }

  /** Overflow and nothing else reorders the visits: before the first one they follow the list, and every
      visit after one has a larger window. */
  lemma OverflowEscalates(w: World, all: seq<Candidate>, vs: seq<Visit>, i: nat, j: nat)
    requires Walk(w, all, vs) && i < j < |vs|
    ensures TooLong(vs[i]) ==> w.window(vs[i].candidate.model) < w.window(vs[j].candidate.model)
    ensures (forall n :: 0 <= n < j ==> !TooLong(vs[n])) ==> j < |all| && vs[j].candidate == all[j]
    ensures (exists n :: 0 <= n < i && TooLong(vs[n])) ==>
              w.window(vs[i].candidate.model) <= w.window(vs[j].candidate.model)
  {
    VisitOrder(w, all, vs, i, j);
    assert forall n :: 0 <= n < |vs| ==> (TooLong(vs[n]) <==> Overflowed(vs[n]));
  }

  /** No candidate is passed over: one that is listed more often than it was visited when the loop gives up
      fits into the window of a model whose call was too long. */
  lemma GivesUpLate(w: World, cfg: RetryConfig, streaming: bool, all: seq<Candidate>, vs: seq<Visit>, c: Candidate)
    requires IsRun(w, cfg, streaming, all, vs) && !EndsLoop(Last(vs)) && multiset(Models(vs))[c] < multiset(all)[c]
    ensures exists j :: 0 <= j < |vs| && TooLong(vs[j]) && w.window(c.model) <= w.window(vs[j].candidate.model)
  {
    ExhaustionIsJustified(w, cfg, streaming, all, vs, c);
    var j :| 0 <= j < |vs| && Overflowed(vs[j]) && w.window(c.model) <= Window(w, vs[j]);
    assert TooLong(vs[j]);
  }

  // ----- what the result reports

  lemma {:induction false} LastProviderIs(vs: seq<Visit>, j: nat)
    requires j < |vs| && vs[j].Tried? && forall i :: j < i < |vs| ==> vs[i].Unresolved?
    ensures LastProvider(vs) == Some(vs[j].candidate.model)
  {
    if j < |vs| - 1 {
      assert Last(vs) == vs[|vs| - 1];
      LastProviderIs(Front(vs), j);
    }
  }

  /** A success carries the response of the very last call made, the model that gave it and all attempts. */
  lemma SuccessReports(
    w: World, cfg: RetryConfig, streaming: bool, d: Decision, vs: seq<Visit>, r: ExecuteResult, failure: Option<Failure>)
    requires Yields(w, cfg, streaming, d, vs, r, failure) && 1 <= cfg.maxAttempts
    ensures failure.None? <==> Last(vs).Tried? && Last(vs).outcome.failure.None?
    ensures failure.None? ==>
              && r.model == Last(vs).candidate.model && r.provider == Some(r.model) && r.fallbackFrom == d.model
              && r.attempts >= 1 && w.call(r.attempts - 1, r.model).failure.None?
              && r.response == if streaming then None else Some(w.call(r.attempts - 1, r.model).response)
  {
    if failure.None? {
      AttemptsBounded(w, cfg, streaming, vs);
      VisitAt(w, cfg, streaming, vs, |vs| - 1);
      assert vs[..|vs| - 1] == Front(vs);
      RetryReturns(w, cfg, streaming, r.model, Last(vs).base, Last(vs).outcome);
    }
  }

  /** A failure carries the error of the last visit and no response. A cancelled run reports no fallback; an
      exhausted one does iff it went beyond the first candidate or the first call was too long. */
  lemma FailureReports(
    w: World, cfg: RetryConfig, streaming: bool, d: Decision, vs: seq<Visit>, r: ExecuteResult, failure: Option<Failure>)
    requires Yields(w, cfg, streaming, d, vs, r, failure) && failure.Some?
    ensures r.model == Last(vs).candidate.model && r.response == None && r.attempts == Attempts(vs)
    ensures Last(vs).Unresolved? ==> failure == w.lookup(|vs| - 1, r.model)
    ensures Last(vs).Tried? ==> failure == Last(vs).outcome.failure
    ensures EndsLoop(Last(vs)) ==> !r.fallbackUsed && r.fallbackFrom == "" && r.provider == Some(r.model)
    ensures !EndsLoop(Last(vs)) ==> r.fallbackFrom == d.model && (r.fallbackUsed <==> |vs| > 1 || TooLong(vs[0]))
  {
    VisitAt(w, cfg, streaming, vs, |vs| - 1);
  }

  /** The provider reported is the last one that was found; when there is none is NoProviderIff. */
  lemma ProviderReported(d: Decision, vs: seq<Visit>, j: nat)
    requires j < |vs| && vs[j].Tried? && forall i :: j < i < |vs| ==> vs[i].Unresolved?
    ensures ResultOf(d, vs).provider == Some(vs[j].candidate.model)
  {
    LastProviderIs(vs, j);
    assert Last(vs) == vs[|vs| - 1];
  }
}
