/** What the bandits choose, told from the outcomes alone: which candidates are out of favour, and which of the
    others is taken. */
module BanditLaws {
  import opened Seqs
  import opened Bandit

  // ----- arms and their outcomes

  datatype Played = Played(model: Model, outcome: Outcome)

  /** The arms after these outcomes, in order. */
  function ArmsAfter(log: seq<Played>): Arms {
    if log == [] then map[] else
      var arms, p := ArmsAfter(Front(log)), Last(log);
      arms[p.model := Pulled(if p.model in arms then arms[p.model] else FRESH, p.outcome.reward, p.outcome.at)]
  }

  function OutcomesOf(log: seq<Played>, m: Model): seq<Outcome> {
    if log == [] then []
    else if Last(log).model == m then OutcomesOf(Front(log), m) + [Last(log).outcome]
    else OutcomesOf(Front(log), m)
  }

  lemma AfterSnoc(run: seq<Outcome>, x: Outcome)
    ensures After(run + [x]) == Pulled(After(run), x.reward, x.at)
  {
    assert Front(run + [x]) == run;
  }

  /** Arms are independent: each is the result of its own outcomes. */
  lemma {:induction false} ArmsIndependent(log: seq<Played>, m: Model)
    ensures m in ArmsAfter(log) <==> OutcomesOf(log, m) != []
    ensures m in ArmsAfter(log) ==> ArmsAfter(log)[m] == After(OutcomesOf(log, m))
  {
    if log != [] {
      ArmsIndependent(Front(log), m);
      AfterSnoc(OutcomesOf(Front(log), m), Last(log).outcome);
    }
  }

  /** The last k >= 3 outcomes of m failed, and its cooldown of min(5s * 2^(k-3), 300s) is not over. */
  predicate Shunned(log: seq<Played>, m: Model, now: int) {
    var run := OutcomesOf(log, m);
    var k := TrailingFails(run);
    k >= 3 && now < Last(run).at + Min(5_000_000_000 * Pow2(k - 3), 300_000_000_000)
  }

  lemma ShunnedIff(log: seq<Played>, m: Model, now: int)
    ensures Cooling(ArmsAfter(log), now, m) <==> Shunned(log, m, now)
  {
    ArmsIndependent(log, m);
    CooldownIff(OutcomesOf(log, m), now);
  }

  /** Exactly the candidates that are not shunned are eligible, or all of them if every one is. */
  lemma EligibleIff(log: seq<Played>, now: int, ms: seq<Model>, m: Model)
    ensures m in EligibleOf(ArmsAfter(log), now, ms) <==>
            m in ms && (!Shunned(log, m, now) || forall c :: c in ms ==> Shunned(log, c, now))
  {
    var arms := ArmsAfter(log);
    var awake := Filter(Awake(arms, now), ms);
    forall c ensures c in awake <==> c in ms && !Shunned(log, c, now) {
      FilterIn(Awake(arms, now), ms, c);
      ShunnedIff(log, c, now);
    }
    if awake != [] {
      assert awake[0] in awake;
    }
  }

  /** The mean reward of m so far. */
  function MeanReward(log: seq<Played>, m: Model): real
    requires OutcomesOf(log, m) != []
  {
    Total(OutcomesOf(log, m)) / |OutcomesOf(log, m)| as real
  }

  // ----- selection

  lemma BestMean(arms: Arms, cs: seq<Model>, m: Model, c: Model)
    requires FirstBest(MeanOf(arms), cs, m) && c in cs && c in arms
    ensures m in cs && m in arms && arms[c].mean <= arms[m].mean
  {
  }

  /** Exploiting, epsilon-greedy takes a candidate of the highest mean reward among those eligible that were ever
      tried; one it did not try counts for nothing. */
  lemma ExploitsBestMean(log: seq<Played>, now: int, ms: seq<Model>, m: Model, c: Model)
    requires FirstBest(MeanOf(ArmsAfter(log)), EligibleOf(ArmsAfter(log), now, ms), m)
    requires c in ms && OutcomesOf(log, c) != []
    requires !Shunned(log, c, now) || forall d :: d in ms ==> Shunned(log, d, now)
    ensures m in ms && (!Shunned(log, m, now) || forall d :: d in ms ==> Shunned(log, d, now))
    ensures OutcomesOf(log, m) != [] && MeanReward(log, c) <= MeanReward(log, m)
  {
    var arms := ArmsAfter(log);
    EligibleIff(log, now, ms, c);
    EligibleIff(log, now, ms, m);
    ArmsIndependent(log, c);
    ArmsIndependent(log, m);
    MeanExact(OutcomesOf(log, c));
    BestMean(arms, EligibleOf(arms, now, ms), m, c);
    MeanExact(OutcomesOf(log, m));
  }

  lemma BestBound(arms: Arms, bonus: Arm -> real, cs: seq<Model>, m: Model, c: Model)
    requires FirstBest(UcbScore(arms, bonus), cs, m) && c in cs
    ensures m in cs
    ensures c !in arms || arms[c].pulls == 0 ==> m !in arms || arms[m].pulls == 0
    ensures c in arms && arms[c].pulls > 0 && m in arms && arms[m].pulls > 0 ==>
              arms[c].mean + bonus(arms[c]) <= arms[m].mean + bonus(arms[m])
  {
  }

  /** UCB takes an untried eligible candidate while there is one, and then one of the highest mean reward and
      bonus together. */
  lemma UntriedFirst(log: seq<Played>, bonus: Arm -> real, now: int, ms: seq<Model>, m: Model, c: Model)
    requires FirstBest(UcbScore(ArmsAfter(log), bonus), EligibleOf(ArmsAfter(log), now, ms), m) && c in ms
    requires !Shunned(log, c, now) || forall d :: d in ms ==> Shunned(log, d, now)
    ensures m in ms && (!Shunned(log, m, now) || forall d :: d in ms ==> Shunned(log, d, now))
    ensures OutcomesOf(log, c) == [] ==> OutcomesOf(log, m) == []
    ensures OutcomesOf(log, c) != [] && OutcomesOf(log, m) != [] ==>
              MeanReward(log, c) + bonus(After(OutcomesOf(log, c))) <= MeanReward(log, m) + bonus(After(OutcomesOf(log, m)))
  {
    var arms := ArmsAfter(log);
    EligibleIff(log, now, ms, c);
    EligibleIff(log, now, ms, m);
    ArmsIndependent(log, c);
    ArmsIndependent(log, m);
    MeanExact(OutcomesOf(log, c));
    MeanExact(OutcomesOf(log, m));
    BestBound(arms, bonus, EligibleOf(arms, now, ms), m, c);
  }

  /** Of equally good candidates the first is taken. */
  lemma FirstBestUnique(score: Model -> Score, cs: seq<Model>, m: Model, c: Model)
    requires FirstBest(score, cs, m) && FirstBest(score, cs, c)
    ensures m == c
  {
    var i :| 0 <= i < |cs| && cs[i] == m && forall j :: 0 <= j < i ==> score(cs[j]) != score(m);
    var k :| 0 <= k < |cs| && cs[k] == c && forall j :: 0 <= j < k ==> score(cs[j]) != score(c);
    assert !Greater(score(cs[i]), score(c)) && !Greater(score(cs[k]), score(m));
    assert score(m) == score(c);
  }

  /** Scores are compared as numbers, with the infinities at the ends. */
  lemma GreaterOrders(a: Score, b: Score, c: Score)
    ensures !Greater(a, a) && (a == b || Greater(a, b) || Greater(b, a)) && !(Greater(a, b) && Greater(b, a))
    ensures Greater(a, b) && Greater(b, c) ==> Greater(a, c)
    ensures a.Fin? && b.Fin? ==> (Greater(a, b) <==> a.r > b.r)
    ensures a.Fin? ==> Greater(PosInf, a) && Greater(a, NegInf)
  {
  }
}
