/** How far a limited scope can be spent beyond its ceiling. Reservations protect the ceiling while the
    average has settled on the common cost; an event that answers no admission releases a reservation that
    is still needed, and the plugin's own warnings are such events. */
module BudgetCeiling {
  import opened Seqs
  import opened Budget
  import opened BudgetRuns

  predicate AdmittedOn(limits: map<string, Limit>, s: System, a: Action, k: string) {
    a.Arrive? && k in ScopeKeys(a.id) && Admits(limits, s.ledger, ScopeKeys(a.id))
  }

  /** The event of a call that names k. */
  predicate CallOn(a: Action, k: string) {
    a.Begin? && !a.ev.shadow && k in ScopeKeys(a.ev.id)
  }

  /** A warning that names k. */
  predicate WarningOn(s: System, a: Action, k: string) {
    a.Deliver? && a.warning < |s.warnings| && k in ScopeKeys(s.warnings[a.warning].id)
  }

  /** Every priced event on k costs c, and k is not reset. */
  predicate Uniform(run: seq<Action>, k: string, c: real) {
    run != [] ==>
      && Uniform(Front(run), k, c)
      && (CallOn(Last(run), k) && Priced(Last(run).ev) ==> Last(run).ev.cost == c) && Last(run) != Reset(k)
  }

  /** A scope whose average has settled on c, with nothing reserved and no more than its limit spent. */
  predicate Warm(limits: map<string, Limit>, L: Ledger, k: string, c: real) {
    && k in limits && At(L.avgCost, k) == c > 0.0
    && At(L.reserved, k) == 0.0 && At(L.spent, k) <= limits[k].limitUSD
  }

  // ----- counting

  function Less(n: nat): nat {
    if n == 0 then 0 else n - 1
  }

  /** Counts of a run, seen from scope k: requests admitted whose event has not begun, reservations held,
      events that answered no admission, and priced events that found no reservation. */
  datatype Tally = Tally(inFlight: nat, held: nat, surplus: nat, unreserved: nat)

  function Count(limits: map<string, Limit>, s: System, a: Action, k: string, n: Tally): Tally {
    if AdmittedOn(limits, s, a, k) then n.(inFlight := n.inFlight + 1, held := n.held + 1)
    else if CallOn(a, k) then
      Tally(Less(n.inFlight), Less(n.held), if n.inFlight == 0 then n.surplus + 1 else n.surplus,
            if n.held == 0 && Priced(a.ev) then n.unreserved + 1 else n.unreserved)
    else if WarningOn(s, a, k) then n.(held := Less(n.held), surplus := n.surplus + 1)
    else n
  }

  function Counted(limits: map<string, Limit>, L: Ledger, run: seq<Action>, k: string): Tally {
    if run == [] then Tally(0, 0, 0, 0)
    else Count(limits, After(limits, L, Front(run)), Last(run), k, Counted(limits, L, Front(run), k))
  }

  /** Events on k that answered no admission: warnings, and calls that were not in flight. */
  function Surplus(limits: map<string, Limit>, L: Ledger, run: seq<Action>, k: string): nat {
    Counted(limits, L, run, k).surplus
  }

  /** Every priced event without a reservation, and every admission that has lost its own, was caused by
      an event that answered no admission. */
  lemma {:induction false} SurplusCauses(limits: map<string, Limit>, L: Ledger, run: seq<Action>, k: string)
    ensures var n := Counted(limits, L, run, k);
            n.held <= n.inFlight && n.unreserved + (n.inFlight - n.held) <= n.surplus
  {
    if run != [] {
      SurplusCauses(limits, L, Front(run), k);
    }
  }

  // ----- one scope, step by step

  /** n copies of c. */
  function Copies(c: real, n: nat): real {
    if n == 0 then 0.0 else Copies(c, n - 1) + c
  }

  lemma CopiesPositive(c: real, n: nat)
    requires c > 0.0
    ensures Copies(c, n) >= 0.0
  {
  }

  lemma {:induction false} CopiesMonotone(c: real, m: nat, n: nat)
    requires c > 0.0 && m <= n
    ensures Copies(c, m) <= Copies(c, n)
  {
    if m < n {
      CopiesMonotone(c, m, n - 1);
    }
  }

  lemma SteadyAccount(a: Account, c: real, n: nat, cost: real, priced: bool)
    requires a.avg == c > 0.0 && a.reserved == Copies(c, n) && (priced ==> cost == c)
    ensures Reconciled(a, cost, priced).avg == c
    ensures Reconciled(a, cost, priced).reserved == Copies(c, Less(n))
  {
    CopiesPositive(c, Less(n));
    if priced {
      assert cost - a.avg == 0.0;
      assert 0.0 / (a.calls + 1) as real == 0.0;
    }
  }

  function Committed(s: System, k: string): real {
    At(s.ledger.spent, k) + At(s.ledger.reserved, k) + Unspent(s.tasks, k)
  }

  /** The average of k is c and n reservations are held. */
  predicate Steady(s: System, k: string, c: real, n: nat) {
    At(s.ledger.avgCost, k) == c > 0.0 && At(s.ledger.reserved, k) == Copies(c, n)
  }

  lemma AdmissionStep(limits: map<string, Limit>, s: System, a: Action, k: string, c: real, n: nat)
    requires k in limits && a.Arrive? && Steady(s, k, c, n)
    ensures var r := Step(limits, s, a);
            if AdmittedOn(limits, s, a, k)
            then Steady(r, k, c, n + 1) && Committed(r, k) <= limits[k].limitUSD + Unspent(s.tasks, k)
            else Steady(r, k, c, n) && Committed(r, k) == Committed(s, k)
  {
    ArriveReserves(limits, s, a.id, k);
  }

  lemma CallStep(limits: map<string, Limit>, s: System, a: Action, k: string, c: real, n: nat)
    requires k in limits && a.Begin? && Steady(s, k, c, n) && (CallOn(a, k) && Priced(a.ev) ==> a.ev.cost == c)
    ensures var r := Step(limits, s, a);
            if CallOn(a, k)
            then Steady(r, k, c, Less(n)) && Committed(r, k) <= Committed(s, k) + if n == 0 && Priced(a.ev) then c else 0.0
            else Steady(r, k, c, n) && Committed(r, k) == Committed(s, k)
  {
    BeginAdds(limits, s, a.ev, k);
    if CallOn(a, k) {
      SteadyAccount(AccountOf(s.ledger, k), c, n, a.ev.cost, Priced(a.ev));
    }
  }

  lemma WarningStep(limits: map<string, Limit>, s: System, a: Action, k: string, c: real, n: nat)
    requires k in limits && a.Deliver? && Steady(s, k, c, n)
    ensures var r := Step(limits, s, a);
            && Steady(r, k, c, if WarningOn(s, a, k) then Less(n) else n)
            && Committed(r, k) <= Committed(s, k)
  {
    DeliverReleases(limits, s, a.warning, k);
    SteadyAccount(AccountOf(s.ledger, k), c, n, 0.0, false);
  }

  /** One step of a uniform run. */
  lemma SteadyStep(limits: map<string, Limit>, s: System, a: Action, k: string, c: real, n: Tally)
    requires TasksDistinct(s.tasks) && k in limits && a != Reset(k) && Steady(s, k, c, n.held)
    requires CallOn(a, k) && Priced(a.ev) ==> a.ev.cost == c
    ensures var r, m := Step(limits, s, a), Count(limits, s, a, k, n);
            && Steady(r, k, c, m.held)
            && Committed(r, k) <=
               if AdmittedOn(limits, s, a, k) then limits[k].limitUSD + Unspent(s.tasks, k)
               else Committed(s, k) + if m.unreserved > n.unreserved then c else 0.0
  {
    match a
    case Arrive(_) => AdmissionStep(limits, s, a, k, c, n.held);
    case Begin(_) => CallStep(limits, s, a, k, c, n.held);
    case Deliver(_) => WarningStep(limits, s, a, k, c, n.held);
    case Spend(i) => SpendMoves(limits, s, i, k);
    case Warn(i) => WarnMoves(limits, s, i, k);
    case Reset(j) =>
  }

  // ----- the ceiling over runs

  /** Whenever a request is admitted on k, at most `gap` is between the averaging section and the
      spend section of k. */
  ghost predicate SeesAtMost(limits: map<string, Limit>, L: Ledger, run: seq<Action>, k: string, gap: real) {
    run != [] ==>
      var s := After(limits, L, Front(run));
      && SeesAtMost(limits, L, Front(run), k, gap)
      && (AdmittedOn(limits, s, Last(run), k) ==> Unspent(s.tasks, k) <= gap)
  }

  /** Reservations are the average times the reservations counted: the calls in flight, less at most one for
      every event that answered no admission. */
  lemma {:induction false} ReservationsMatch(limits: map<string, Limit>, L: Ledger, run: seq<Action>, k: string, c: real)
    requires Warm(limits, L, k, c) && Uniform(run, k, c)
    ensures var n := Counted(limits, L, run, k);
            Steady(After(limits, L, run), k, c, n.held) && n.inFlight - n.surplus <= n.held <= n.inFlight
  {
    SurplusCauses(limits, L, run, k);
    if run != [] {
      ReservationsMatch(limits, L, Front(run), k, c);
      RunTasksDistinct(limits, L, Front(run));
      SteadyStep(limits, After(limits, L, Front(run)), Last(run), k, c, Counted(limits, L, Front(run), k));
    }
  }

  lemma {:induction false} CommittedBounded(
    limits: map<string, Limit>, L: Ledger, run: seq<Action>, k: string, c: real, gap: real)
    requires Warm(limits, L, k, c) && Uniform(run, k, c) && 0.0 <= gap && SeesAtMost(limits, L, run, k, gap)
    ensures Committed(After(limits, L, run), k) <= limits[k].limitUSD + gap + Copies(c, Counted(limits, L, run, k).unreserved)
  {
    if run != [] {
      var n := Counted(limits, L, Front(run), k);
      CommittedBounded(limits, L, Front(run), k, c, gap);
      ReservationsMatch(limits, L, Front(run), k, c);
      RunTasksDistinct(limits, L, Front(run));
      BoundStep(limits, After(limits, L, Front(run)), Last(run), k, c, n, gap);
    }
  }

  lemma BoundStep(limits: map<string, Limit>, s: System, a: Action, k: string, c: real, n: Tally, gap: real)
    requires TasksDistinct(s.tasks) && k in limits && a != Reset(k) && Steady(s, k, c, n.held)
    requires CallOn(a, k) && Priced(a.ev) ==> a.ev.cost == c
    requires AdmittedOn(limits, s, a, k) ==> Unspent(s.tasks, k) <= gap
    requires Committed(s, k) <= limits[k].limitUSD + gap + Copies(c, n.unreserved)
    ensures Committed(Step(limits, s, a), k) <=
            limits[k].limitUSD + gap + Copies(c, Count(limits, s, a, k, n).unreserved)
  {
    SteadyStep(limits, s, a, k, c, n);
    CopiesPositive(c, n.unreserved);
  }

  /** The ceiling: spent, reserved and unspent cost together exceed the limit by no more than the gap that
      admissions can overlook and one call for every event that answered no admission. */
  lemma CeilingHolds(limits: map<string, Limit>, L: Ledger, run: seq<Action>, k: string, c: real, gap: real)
    requires Warm(limits, L, k, c) && Uniform(run, k, c) && 0.0 <= gap && SeesAtMost(limits, L, run, k, gap)
    ensures Committed(After(limits, L, run), k) <= limits[k].limitUSD + gap + Copies(c, Surplus(limits, L, run, k))
  {
    CommittedBounded(limits, L, run, k, c, gap);
    SurplusCauses(limits, L, run, k);
    CopiesMonotone(c, Counted(limits, L, run, k).unreserved, Surplus(limits, L, run, k));
  }

  lemma {:induction false} UnspentNonNegative(tasks: seq<Task>, k: string)
    requires forall t :: t in tasks ==> t.cost >= 0.0
    ensures Unspent(tasks, k) >= 0.0
  {
    if tasks != [] {
      assert Last(tasks) in tasks;
      UnspentNonNegative(Front(tasks), k);
    }
  }

  /** A task of the next state was a task before, or comes from the event that begins. */
  lemma TaskBefore(limits: map<string, Limit>, s: System, a: Action, t: Task) returns (u: Task)
    requires t in Step(limits, s, a).tasks
    ensures (u in s.tasks && t.cost == u.cost && forall k :: k in t.todo ==> k in u.todo)
            || (a.Begin? && !a.ev.shadow && Priced(a.ev) && u == t && t.cost == a.ev.cost && t.todo == ScopeKeys(a.ev.id))
  {
    u := t;
    if t !in s.tasks && !a.Begin? {
      u := s.tasks[if a.Spend? then a.task else if a.Warn? then a.task else 0];
    }
  }

  lemma {:induction false} TaskCosts(limits: map<string, Limit>, L: Ledger, run: seq<Action>, t: Task)
    requires t in After(limits, L, run).tasks
    ensures t.cost > 0.0
  {
    if run != [] {
      var s := After(limits, L, Front(run));
      var u := TaskBefore(limits, s, Last(run), t);
      if u in s.tasks {
        TaskCosts(limits, L, Front(run), u);
      }
    }
  }

  /** What has been spent on k exceeds its limit by no more than that. */
  lemma SpentBelowCeiling(limits: map<string, Limit>, L: Ledger, run: seq<Action>, k: string, c: real, gap: real)
    requires Warm(limits, L, k, c) && Uniform(run, k, c) && 0.0 <= gap && SeesAtMost(limits, L, run, k, gap)
    ensures At(After(limits, L, run).ledger.spent, k) <= limits[k].limitUSD + gap + Copies(c, Surplus(limits, L, run, k))
  {
    CeilingHolds(limits, L, run, k, c, gap);
    ReservationsMatch(limits, L, run, k, c);
    CopiesPositive(c, Counted(limits, L, run, k).held);
    var tasks := After(limits, L, run).tasks;
    forall t | t in tasks ensures t.cost >= 0.0 {
      TaskCosts(limits, L, run, t);
    }
    UnspentNonNegative(tasks, k);
  }

  // ----- dispatchers

  /** At most m events are being handled at once. */
  ghost predicate Dispatchers(limits: map<string, Limit>, L: Ledger, run: seq<Action>, m: nat) {
    |After(limits, L, run).tasks| <= m && (run != [] ==> Dispatchers(limits, L, Front(run), m))
  }

  lemma {:induction false} TaskCostsOn(limits: map<string, Limit>, L: Ledger, run: seq<Action>, k: string, c: real, t: Task)
    requires Uniform(run, k, c) && t in After(limits, L, run).tasks && k in t.todo
    ensures t.cost == c
  {
    if run != [] {
      var s := After(limits, L, Front(run));
      var u := TaskBefore(limits, s, Last(run), t);
      if u in s.tasks {
        TaskCostsOn(limits, L, Front(run), k, c, u);
      }
    }
  }

  lemma {:induction false} UnspentCopies(tasks: seq<Task>, k: string, c: real)
    requires c > 0.0 && forall t :: t in tasks && k in t.todo ==> t.cost == c
    ensures Unspent(tasks, k) <= Copies(c, |tasks|)
  {
    if tasks != [] {
      assert Last(tasks) in tasks;
      UnspentCopies(Front(tasks), k, c);
    }
  }

  lemma {:induction false} DispatchersSee(limits: map<string, Limit>, L: Ledger, run: seq<Action>, k: string, c: real, m: nat)
    requires c > 0.0 && Uniform(run, k, c) && Dispatchers(limits, L, run, m)
    ensures SeesAtMost(limits, L, run, k, Copies(c, m))
  {
    if run != [] {
      var front := Front(run);
      DispatchersSee(limits, L, front, k, c, m);
      var tasks := After(limits, L, front).tasks;
      forall t | t in tasks && k in t.todo ensures t.cost == c {
        TaskCostsOn(limits, L, front, k, c, t);
      }
      UnspentCopies(tasks, k, c);
      CopiesMonotone(c, |tasks|, m);
    }
  }

  /** With m dispatchers the overshoot is at most m calls, and one for every event that answered no
      admission. */
  lemma OvershootPerDispatcher(limits: map<string, Limit>, L: Ledger, run: seq<Action>, k: string, c: real, m: nat)
    requires Warm(limits, L, k, c) && Uniform(run, k, c) && Dispatchers(limits, L, run, m)
    ensures At(After(limits, L, run).ledger.spent, k) <=
            limits[k].limitUSD + Copies(c, m) + Copies(c, Surplus(limits, L, run, k))
  {
    DispatchersSee(limits, L, run, k, c, m);
    CopiesPositive(c, m);
    SpentBelowCeiling(limits, L, run, k, c, Copies(c, m));
  }

  /** With the one dispatcher of the in-process bus. */
  lemma OneDispatcher(limits: map<string, Limit>, L: Ledger, run: seq<Action>, k: string, c: real)
    requires Warm(limits, L, k, c) && Uniform(run, k, c) && Dispatchers(limits, L, run, 1)
    ensures At(After(limits, L, run).ledger.spent, k) <= limits[k].limitUSD + c + Copies(c, Surplus(limits, L, run, k))
  {
    OvershootPerDispatcher(limits, L, run, k, c, 1);
    assert Copies(c, 1) == Copies(c, 0) + c;
  }

  /** Requests are admitted only while no event is half handled, as if OnEvent were atomic. */
  ghost predicate Atomic(limits: map<string, Limit>, L: Ledger, run: seq<Action>, k: string) {
    run != [] ==>
      && Atomic(limits, L, Front(run), k)
      && (AdmittedOn(limits, After(limits, L, Front(run)), Last(run), k) ==> After(limits, L, Front(run)).tasks == [])
  }

  lemma {:induction false} AtomicSees(limits: map<string, Limit>, L: Ledger, run: seq<Action>, k: string)
    requires Atomic(limits, L, run, k)
    ensures SeesAtMost(limits, L, run, k, 0.0)
  {
    if run != [] {
      AtomicSees(limits, L, Front(run), k);
    }
  }

  /** With OnEvent atomic the ceiling is exact in every reachable state, reservations included, but for the
      events that answered no admission. */
  lemma AtomicCeiling(limits: map<string, Limit>, L: Ledger, run: seq<Action>, k: string, c: real)
    requires Warm(limits, L, k, c) && Uniform(run, k, c) && Atomic(limits, L, run, k)
    ensures Committed(After(limits, L, run), k) <= limits[k].limitUSD + Copies(c, Surplus(limits, L, run, k))
  {
    AtomicSees(limits, L, run, k);
    CeilingHolds(limits, L, run, k, c, 0.0);
  }
}
