/** The bandit router: progressive cooldown of failing arms and selection among the others. Rewards
    are real, time is an integer in nanoseconds. The random draws of epsilon-greedy and the exploration
    bonus of UCB are arbitrary parameters. */
module Bandit {
  import opened Seqs

  const SECOND := 1_000_000_000
  const THRESHOLD := 0.7
  const STREAK := 3
  const COOLDOWN_BASE := 5 * SECOND
  const COOLDOWN_MAX := 300 * SECOND

  /** A cooldown of None is Go's zero time. */
  datatype Arm = Arm(pulls: nat, sum: real, mean: real, fails: nat, until: Option<int>)

  const FRESH := Arm(0, 0.0, 0.0, 0, None)

  function Pow2(n: nat): nat {
    if n == 0 then 1 else 2 * Pow2(n - 1)
  }

  /** The cooldown after the k-th failure in a row, with the guard against shift overflow. */
  function Backoff(k: nat): int
    requires k >= STREAK
  {
    var exp := if k - STREAK > 10 then 10 else k - STREAK;
    var b := COOLDOWN_BASE * Pow2(exp);
    if b > COOLDOWN_MAX || b <= 0 then COOLDOWN_MAX else b
  }

  function RecordOutcome(a: Arm, reward: real, now: int): Arm {
    if reward >= THRESHOLD then a.(fails := 0, until := None)
    else
      var k := a.fails + 1;
      if k < STREAK then a.(fails := k) else a.(fails := k, until := Some(now + Backoff(k)))
  }

  function Pulled(a: Arm, reward: real, now: int): Arm {
    var n, s := a.pulls + 1, a.sum + reward;
    RecordOutcome(a.(pulls := n, sum := s, mean := s / n as real), reward, now)
  }

  predicate InCooldown(a: Arm, now: int) {
    a.until.Some? && now < a.until.value
  }

  // ----- one arm over a run

  datatype Outcome = Outcome(reward: real, at: int)

  function After(run: seq<Outcome>): Arm {
    if run == [] then FRESH else Pulled(After(Front(run)), Last(run).reward, Last(run).at)
  }

  /** Length of the run of failures at the end. */
  function TrailingFails(run: seq<Outcome>): (n: nat)
    ensures n <= |run|
  {
    if run == [] || Last(run).reward >= 0.7 then 0 else TrailingFails(Front(run)) + 1
  }

  lemma {:induction false} Pow2Monotone(m: nat, n: nat)
    requires m <= n
    ensures 1 <= Pow2(m) <= Pow2(n)
  {
    if m < n {
      Pow2Monotone(m, n - 1);
    } else if m > 0 {
      Pow2Monotone(m - 1, m - 1);
    }
  }

  lemma Pow2Six()
    ensures Pow2(5) == 32 && Pow2(6) == 64
  {
    assert Pow2(1) == 2 && Pow2(2) == 4 && Pow2(3) == 8 && Pow2(4) == 16;
  }

  /** The cooldown doubles exactly, up to five minutes: neither the clamp on the exponent nor the
      overflow guard ever changes its value. */
  lemma BackoffExact(k: nat)
    requires k >= STREAK
    ensures Backoff(k) == Min(COOLDOWN_BASE * Pow2(k - STREAK), COOLDOWN_MAX)
    ensures COOLDOWN_BASE <= Backoff(k) <= COOLDOWN_MAX
  {
    Pow2Six();
    if k - STREAK >= 6 {
      Pow2Monotone(6, k - STREAK);
      Pow2Monotone(6, 10);
    } else {
      Pow2Monotone(0, k - STREAK);
      Pow2Monotone(k - STREAK, 5);
    }
  }

  lemma {:induction false} StreakExact(run: seq<Outcome>)
    ensures var a, k := After(run), TrailingFails(run);
            && a.fails == k
            && a.until == if k >= STREAK then Some(Last(run).at + Backoff(k)) else None
  {
    if run != [] {
      StreakExact(Front(run));
    }
  }

  /** An arm cools down exactly when its last k >= 3 outcomes failed and fewer than
      min(5s * 2^(k-3), 300s) have passed since the last of them. */
  lemma CooldownIff(run: seq<Outcome>, now: int)
    ensures var k := TrailingFails(run);
            InCooldown(After(run), now) <==>
            k >= STREAK && now < Last(run).at + Min(COOLDOWN_BASE * Pow2(k - STREAK), COOLDOWN_MAX)
  {
    StreakExact(run);
    if TrailingFails(run) >= STREAK {
      BackoffExact(TrailingFails(run));
    }
  }

  function Total(run: seq<Outcome>): real {
    if run == [] then 0.0 else Total(Front(run)) + Last(run).reward
  }

  /** The mean is that of every reward ever recorded. */
  lemma {:induction false} MeanExact(run: seq<Outcome>)
    ensures After(run).pulls == |run| && After(run).sum == Total(run)
    ensures run != [] ==> After(run).mean == Total(run) / |run| as real
  {
    if run != [] {
      MeanExact(Front(run));
    }
  }

  // ----- selection

  type Model = string
  type Arms = map<Model, Arm>

  predicate Cooling(arms: Arms, now: int, m: Model) {
    m in arms && InCooldown(arms[m], now)
  }

  function Awake(arms: Arms, now: int): Model -> bool {
    (m: Model) => !Cooling(arms, now, m)
  }

  /** The candidates that do not cool down, or all of them if they all do. */
  function EligibleOf(arms: Arms, now: int, ms: seq<Model>): seq<Model> {
    if Filter(Awake(arms, now), ms) == [] then ms else Filter(Awake(arms, now), ms)
  }

  method Eligible(arms: Arms, now: int, ms: seq<Model>) returns (out: seq<Model>)
    ensures out == EligibleOf(arms, now, ms)
  {
    out := [];
    for i := 0 to |ms|
      invariant out == Filter(Awake(arms, now), ms[..i])
    {
      assert Front(ms[..i + 1]) == ms[..i];
      if ms[i] in arms && InCooldown(arms[ms[i]], now) {
        continue;
      }
      out := out + [ms[i]];
    }
    assert ms[..|ms|] == ms;
    if out == [] {
      out := ms;
    }
  }

  /** A selection may be cooling down only if every candidate is. */
  ghost predicate Sound(arms: Arms, now: int, ms: seq<Model>, m: Model) {
    m in ms && (Cooling(arms, now, m) ==> forall i :: 0 <= i < |ms| ==> Cooling(arms, now, ms[i]))
  }

  lemma EligibleSound(arms: Arms, now: int, ms: seq<Model>, m: Model)
    requires m in EligibleOf(arms, now, ms)
    ensures Sound(arms, now, ms, m)
  {
    FilterIn(Awake(arms, now), ms, m);
    forall i | 0 <= i < |ms| && Filter(Awake(arms, now), ms) == [] ensures Cooling(arms, now, ms[i]) {
      FilterIn(Awake(arms, now), ms, ms[i]);
    }
  }

  /** Scores with infinities. */
  datatype Score = NegInf | Fin(r: real) | PosInf

  predicate Greater(a: Score, b: Score) {
    match (a, b)
    case (PosInf, PosInf) => false
    case (PosInf, _) => true
    case (Fin(x), Fin(y)) => x > y
    case (Fin(_), NegInf) => true
    case _ => false
  }

  function MeanOf(arms: Arms): Model -> Score {
    (m: Model) => if m in arms then Fin(arms[m].mean) else NegInf
  }

  /** The first element of largest score, when any score is above minus infinity. */
  ghost predicate FirstBest(score: Model -> Score, ms: seq<Model>, m: Model) {
    exists i :: 0 <= i < |ms| && ms[i] == m
                && (forall j :: 0 <= j < |ms| ==> !Greater(score(ms[j]), score(m)))
                && (forall j :: 0 <= j < i ==> score(ms[j]) != score(m))
  }

  /** The argmax loop of both bandits, starting from `none`. */
  method ArgMax(score: Model -> Score, ms: seq<Model>, none: Model) returns (best: Model)
    ensures if forall i :: 0 <= i < |ms| ==> score(ms[i]) == NegInf then best == none else FirstBest(score, ms, best)
  {
    best := none;
    var bestScore := NegInf;
    ghost var at := 0;
    for i := 0 to |ms|
      invariant forall j :: 0 <= j < i ==> !Greater(score(ms[j]), bestScore)
      invariant bestScore == NegInf ==> best == none
      invariant bestScore != NegInf ==>
                  && 0 <= at < i && ms[at] == best && score(best) == bestScore
                  && forall j :: 0 <= j < at ==> score(ms[j]) != bestScore
    {
      if Greater(score(ms[i]), bestScore) {
        forall j | 0 <= j < i ensures score(ms[j]) != score(ms[i]) {
          assert !Greater(score(ms[j]), bestScore);
        }
        bestScore, best, at := score(ms[i]), ms[i], i;
      }
    }
  }

  /** With `explore` a random eligible candidate, otherwise the first of highest mean. */
  method SelectEpsilonGreedy(arms: Arms, now: int, ms: seq<Model>, explore: bool, draw: nat) returns (m: Model)
    requires explore && ms != [] ==> draw < |EligibleOf(arms, now, ms)|
    ensures ms == [] ==> m == ""
    ensures ms != [] ==> Sound(arms, now, ms, m)
    ensures ms != [] && explore ==> m == EligibleOf(arms, now, ms)[draw]
    ensures ms != [] && !explore ==>
              var cs := EligibleOf(arms, now, ms);
              if exists i :: 0 <= i < |cs| && cs[i] in arms then FirstBest(MeanOf(arms), cs, m) else cs != [] && m == cs[0]
  {
    if ms == [] {
      return "";
    }
    var candidates := Eligible(arms, now, ms);
    assert candidates != [];
    if explore {
      m := candidates[draw];
    } else {
      m := ArgMax(MeanOf(arms), candidates, candidates[0]);
    }
    EligibleSound(arms, now, ms, m);
  }

  function UcbScore(arms: Arms, bonus: Arm -> real): Model -> Score {
    (m: Model) => if m !in arms || arms[m].pulls == 0 then PosInf else Fin(arms[m].mean + bonus(arms[m]))
  }

  /** The first eligible candidate of highest upper confidence bound; untried arms come first. */
  method SelectUCB(arms: Arms, now: int, ms: seq<Model>, bonus: Arm -> real) returns (m: Model)
    ensures ms == [] ==> m == ""
    ensures ms != [] ==> Sound(arms, now, ms, m) && FirstBest(UcbScore(arms, bonus), EligibleOf(arms, now, ms), m)
  {
    if ms == [] {
      return "";
    }
    var candidates := Eligible(arms, now, ms);
    assert candidates != [];
    m := ArgMax(UcbScore(arms, bonus), candidates, "");
    assert UcbScore(arms, bonus)(candidates[0]) != NegInf;
    EligibleSound(arms, now, ms, m);
  }

  class Arena {
    var arms: Arms

    constructor ()
      ensures arms == map[]
    {
      arms := map[];
    }

    method Update(m: Model, reward: real, now: int)
      modifies this
      ensures arms == old(arms)[m := Pulled(if m in old(arms) then old(arms)[m] else FRESH, reward, now)]
    {
      var a := if m in arms then arms[m] else FRESH;
      a := a.(pulls := a.pulls + 1, sum := a.sum + reward);
      a := a.(mean := a.sum / a.pulls as real);
      if reward >= THRESHOLD {
        a := a.(fails := 0, until := None);
      } else {
        a := a.(fails := a.fails + 1);
        if a.fails >= STREAK {
          a := a.(until := Some(now + Backoff(a.fails)));
        }
      }
      arms := arms[m := a];
    }
  }

  /** No cooldown outlasts five minutes: an arm not used since then can be selected again. */
  lemma CooldownEnds(run: seq<Outcome>, now: int)
    requires run != [] && now >= Last(run).at + COOLDOWN_MAX
    ensures !InCooldown(After(run), now)
  {
    CooldownIff(run, now);
  }
}
