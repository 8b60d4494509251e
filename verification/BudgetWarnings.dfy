/** What the plugin's own warnings cost. A warning names only the tenant, and comes back as an event that
    answers no admission; with one dispatcher every limited scope of a tenant warns at most once. The runs
    at the end start from an empty ledger and attain the bounds. */
module BudgetWarnings {
  import opened Seqs
  import opened Budget
  import opened BudgetRuns
  import opened BudgetCeiling

  // ----- how many warnings there can be

  predicate NoReset(run: seq<Action>) {
    forall i :: 0 <= i < |run| ==> !run[i].Reset?
  }

  /** The action publishes a warning. */
  predicate Publishes(s: System, a: Action) {
    a.Warn? && a.task < |s.tasks| && s.tasks[a.task].warn.Some?
  }

  /** Warnings that a run publishes for tenant k. */
  function WarningsFor(limits: map<string, Limit>, L: Ledger, run: seq<Action>, k: string): nat {
    if run == [] then 0 else
      var s, a := After(limits, L, Front(run)), Last(run);
      WarningsFor(limits, L, Front(run), k) + if Publishes(s, a) && s.tasks[a.task].tenant == k then 1 else 0
  }

  /** A scope of tenant t: the tenant itself, a team or a user. */
  predicate IsBelow(j: string, t: string) {
    j == t || t + ":" <= j
  }

  /** The limited scopes of tenant t. */
  function Below(scopes: set<string>, t: string): set<string> {
    set j | j in scopes && IsBelow(j, t)
  }

  ghost predicate OwnScopes(t: Task) {
    (forall i :: 0 <= i < |t.todo| ==> IsBelow(t.todo[i], t.tenant)) && (t.warn.Some? ==> IsBelow(t.warn.value, t.tenant))
  }

  /** The one event being handled is about to mark a limited scope of its tenant that is not marked yet. */
  ghost predicate MarksNew(limits: map<string, Limit>, s: System) {
    && |s.tasks| <= 1 && s.ledger.warned <= limits.Keys
    && (|s.tasks| == 1 ==>
          && OwnScopes(s.tasks[0])
          && (s.tasks[0].warn.Some? ==> s.tasks[0].warn.value in limits && s.tasks[0].warn.value !in s.ledger.warned))
  }

  lemma {:induction false} ReserveWarned(limits: map<string, Limit>, L: Ledger, scopes: seq<string>)
    ensures Reserve(limits, L, scopes).warned == L.warned
  {
    if scopes != [] {
      ReserveWarned(limits, L, Front(scopes));
    }
  }

  lemma ScopesBelow(id: Identity, i: nat)
    requires i < |ScopeKeys(id)|
    ensures IsBelow(ScopeKeys(id)[i], id.tenant)
  {
    var k := ScopeKeys(id)[i];
    if k != id.tenant {
      assert k == id.tenant + ":" + k[|id.tenant| + 1..];
    }
  }

  lemma BeginMarksNew(limits: map<string, Limit>, s: System, ev: Event)
    requires MarksNew(limits, s) && |Step(limits, s, Begin(ev)).tasks| <= 1
    ensures MarksNew(limits, Step(limits, s, Begin(ev))) && Step(limits, s, Begin(ev)).ledger.warned == s.ledger.warned
  {
    ReconcileWarned(limits, s.ledger, ScopeKeys(ev.id), ev.cost, Priced(ev));
    forall i | 0 <= i < |ScopeKeys(ev.id)| ensures IsBelow(ScopeKeys(ev.id)[i], ev.id.tenant) {
      ScopesBelow(ev.id, i);
    }
  }

  lemma SpendMarksNew(limits: map<string, Limit>, s: System, i: nat)
    requires MarksNew(limits, s)
    ensures MarksNew(limits, Step(limits, s, Spend(i))) && Step(limits, s, Spend(i)).ledger.warned == s.ledger.warned
  {
    if i < |s.tasks| && s.tasks[i].todo != [] {
      assert IsBelow(s.tasks[i].todo[0], s.tasks[i].tenant);
    }
  }

  lemma WarnMarksNew(limits: map<string, Limit>, s: System, i: nat)
    requires MarksNew(limits, s)
    ensures MarksNew(limits, Step(limits, s, Warn(i)))
  {
  }

  lemma BelowGrows(scopes: set<string>, j: string, k: string)
    requires j !in scopes
    ensures |Below(scopes + {j}, k)| == |Below(scopes, k)| + if IsBelow(j, k) then 1 else 0
  {
    assert Below(scopes + {j}, k) == if IsBelow(j, k) then Below(scopes, k) + {j} else Below(scopes, k);
  }

  lemma WarnMarks(limits: map<string, Limit>, s: System, i: nat, k: string)
    requires MarksNew(limits, s)
    ensures var r := Step(limits, s, Warn(i));
            |Below(r.ledger.warned, k)| >=
            |Below(s.ledger.warned, k)| + if Publishes(s, Warn(i)) && s.tasks[i].tenant == k then 1 else 0
  {
    if Publishes(s, Warn(i)) {
      BelowGrows(s.ledger.warned, s.tasks[i].warn.value, k);
    }
  }

  lemma StepMarksNew(limits: map<string, Limit>, s: System, a: Action, k: string)
    requires MarksNew(limits, s) && !a.Reset? && |Step(limits, s, a).tasks| <= 1
    ensures var r := Step(limits, s, a);
            && MarksNew(limits, r)
            && |Below(r.ledger.warned, k)| >=
               |Below(s.ledger.warned, k)| + if Publishes(s, a) && s.tasks[a.task].tenant == k then 1 else 0
  {
    match a
    case Arrive(id) => ReserveWarned(limits, s.ledger, ScopeKeys(id));
    case Begin(ev) => BeginMarksNew(limits, s, ev);
    case Deliver(i) =>
      if i < |s.warnings| {
        ReconcileWarned(limits, s.ledger, ScopeKeys(s.warnings[i].id), 0.0, false);
      }
    case Spend(i) => SpendMarksNew(limits, s, i);
    case Warn(i) => WarnMarksNew(limits, s, i); WarnMarks(limits, s, i, k);
  }

  lemma {:induction false} RunMarksNew(limits: map<string, Limit>, L: Ledger, run: seq<Action>, k: string)
    requires Dispatchers(limits, L, run, 1) && NoReset(run) && L.warned <= limits.Keys
    ensures MarksNew(limits, After(limits, L, run))
    ensures |Below(After(limits, L, run).ledger.warned, k)| >= WarningsFor(limits, L, run, k)
  {
    if run != [] {
      assert run[|run| - 1] == Last(run);
      RunMarksNew(limits, L, Front(run), k);
      StepMarksNew(limits, After(limits, L, Front(run)), Last(run), k);
    }
  }

  /** With one dispatcher every limited scope of a tenant warns at most once. */
  lemma WarnsOncePerScope(limits: map<string, Limit>, L: Ledger, run: seq<Action>, k: string)
    requires Dispatchers(limits, L, run, 1) && NoReset(run) && L.warned <= limits.Keys
    ensures WarningsFor(limits, L, run, k) <= |Below(limits.Keys, k)|
  {
    RunMarksNew(limits, L, run, k);
    SubsetSize(Below(After(limits, L, run).ledger.warned, k), Below(limits.Keys, k));
  }

  // ----- what they do to the ceiling

  ghost predicate AreWarnings(ws: seq<Event>) {
    forall i :: 0 <= i < |ws| ==> ws[i] == Warning(ws[i].id.tenant)
  }

  lemma OneFewer(ws: seq<Event>, i: nat)
    requires AreWarnings(ws) && i < |ws|
    ensures AreWarnings(RemoveAt(ws, i))
  {
  }

  lemma OneMoreQueued(ws: seq<Event>, t: string)
    requires AreWarnings(ws)
    ensures AreWarnings(ws + [Warning(t)])
  {
  }

  lemma StepQueues(limits: map<string, Limit>, s: System, a: Action)
    requires AreWarnings(s.warnings)
    ensures AreWarnings(Step(limits, s, a).warnings)
  {
    match a
    case Deliver(i) =>
      if i < |s.warnings| {
        OneFewer(s.warnings, i);
      }
    case Warn(i) =>
      if i < |s.tasks| && s.tasks[i].warn.Some? {
        OneMoreQueued(s.warnings, s.tasks[i].tenant);
      }
    case _ =>
  }

  lemma {:induction false} OnlyWarningsQueued(limits: map<string, Limit>, L: Ledger, run: seq<Action>)
    ensures AreWarnings(After(limits, L, run).warnings)
  {
    if run != [] {
      OnlyWarningsQueued(limits, L, Front(run));
      StepQueues(limits, After(limits, L, Front(run)), Last(run));
    }
  }

  lemma WarningNames(t: string, k: string)
    requires k in ScopeKeys(Warning(t).id)
    ensures t == k
  {
  }

  /** The event of a call on k always answers an admission. */
  ghost predicate Answered(limits: map<string, Limit>, L: Ledger, run: seq<Action>, k: string) {
    run != [] ==>
      && Answered(limits, L, Front(run), k)
      && (CallOn(Last(run), k) ==> Counted(limits, L, Front(run), k).inFlight > 0)
  }

  lemma StepSurplus(limits: map<string, Limit>, s: System, a: Action, k: string, n: Tally)
    requires AreWarnings(s.warnings) && (CallOn(a, k) ==> n.inFlight > 0)
    ensures var r := Step(limits, s, a);
            Count(limits, s, a, k, n).surplus + multiset(r.warnings)[Warning(k)] <=
            n.surplus + multiset(s.warnings)[Warning(k)] + if Publishes(s, a) && s.tasks[a.task].tenant == k then 1 else 0
  {
    if a.Deliver? && a.warning < |s.warnings| {
      SplitAt(s.warnings, a.warning);
      if WarningOn(s, a, k) {
        WarningNames(s.warnings[a.warning].id.tenant, k);
      }
    }
  }

  lemma {:induction false} OnlyWarningsAreSurplus(limits: map<string, Limit>, L: Ledger, run: seq<Action>, k: string)
    requires Answered(limits, L, run, k)
    ensures Surplus(limits, L, run, k) + multiset(After(limits, L, run).warnings)[Warning(k)] <= WarningsFor(limits, L, run, k)
  {
    if run != [] {
      OnlyWarningsAreSurplus(limits, L, Front(run), k);
      OnlyWarningsQueued(limits, L, Front(run));
      StepSurplus(limits, After(limits, L, Front(run)), Last(run), k, Counted(limits, L, Front(run), k));
    }
  }

  /** The ceiling of a real deployment: one dispatcher, and one event for every admitted call. The
      overshoot of a tenant is at most one call, and one more for every limited scope of that tenant. */
  lemma TotalOvershoot(limits: map<string, Limit>, L: Ledger, run: seq<Action>, k: string, c: real)
    requires Warm(limits, L, k, c) && Uniform(run, k, c) && Dispatchers(limits, L, run, 1)
    requires Answered(limits, L, run, k) && NoReset(run) && L.warned <= limits.Keys
    ensures At(After(limits, L, run).ledger.spent, k) <= limits[k].limitUSD + c + Copies(c, |Below(limits.Keys, k)|)
  {
    OneDispatcher(limits, L, run, k, c);
    WarnsOncePerScope(limits, L, run, k);
    OnlyWarningsAreSurplus(limits, L, run, k);
    CopiesMonotone(c, Surplus(limits, L, run, k), |Below(limits.Keys, k)|);
  }

  predicate PlainTenants(run: seq<Action>) {
    forall a :: a in run && a.Begin? ==> ColonFree(a.ev.id.tenant)
  }

  ghost predicate PlainTasks(tasks: seq<Task>) {
    forall i :: 0 <= i < |tasks| ==> ColonFree(tasks[i].tenant)
  }

  lemma PlainPut(tasks: seq<Task>, i: nat, t: Task)
    requires PlainTasks(tasks) && i < |tasks| && ColonFree(t.tenant)
    ensures PlainTasks(Put(tasks, i, t))
  {
  }

  lemma StepPlain(limits: map<string, Limit>, s: System, a: Action)
    requires PlainTasks(s.tasks) && (a.Begin? ==> ColonFree(a.ev.id.tenant))
    ensures PlainTasks(Step(limits, s, a).tasks)
  {
    match a
    case Spend(i) =>
      if i < |s.tasks| && s.tasks[i].todo != [] && s.tasks[i].warn.None? {
        var k := s.tasks[i].todo[0];
        var due := WarnDue(limits, SpendOn(s.ledger, k, s.tasks[i].cost), k);
        PlainPut(s.tasks, i, s.tasks[i].(todo := s.tasks[i].todo[1..], warn := if due then Some(k) else None));
      }
    case Warn(i) =>
      if i < |s.tasks| && s.tasks[i].warn.Some? {
        PlainPut(s.tasks, i, s.tasks[i].(warn := None));
      }
    case _ =>
  }

  lemma {:induction false} NoWarningsForSubScopes(limits: map<string, Limit>, L: Ledger, run: seq<Action>, k: string)
    requires PlainTenants(run) && !ColonFree(k)
    ensures WarningsFor(limits, L, run, k) == 0 && PlainTasks(After(limits, L, run).tasks)
  {
    if run != [] {
      assert run[|run| - 1] == Last(run);
      NoWarningsForSubScopes(limits, L, Front(run), k);
      StepPlain(limits, After(limits, L, Front(run)), Last(run));
    }
  }

  /** A team or a user is never named by a warning, if tenants have no colon in their IDs: its overshoot is at
      most one call. */
  lemma SubScopeOvershoot(limits: map<string, Limit>, L: Ledger, run: seq<Action>, k: string, c: real)
    requires Warm(limits, L, k, c) && Uniform(run, k, c) && Dispatchers(limits, L, run, 1)
    requires Answered(limits, L, run, k) && PlainTenants(run) && !ColonFree(k)
    ensures At(After(limits, L, run).ledger.spent, k) <= limits[k].limitUSD + c
  {
    OneDispatcher(limits, L, run, k, c);
    NoWarningsForSubScopes(limits, L, run, k);
    OnlyWarningsAreSurplus(limits, L, run, k);
  }

  // ----- both overshoots are real

  /** Where a run of calls of one dollar by tenant k stands. */
  ghost predicate Stands(
    limits: map<string, Limit>, L: Ledger, k: string, run: seq<Action>, spent: real, n: Tally, tasks: seq<Task>,
    warnings: seq<Event>)
  {
    && k != "" && Warm(limits, L, k, 1.0) && Uniform(run, k, 1.0)
    && Dispatchers(limits, L, run, 1) && Answered(limits, L, run, k)
    && Counted(limits, L, run, k) == n
    && var s := After(limits, L, run);
    At(s.ledger.spent, k) == spent && s.tasks == tasks && s.warnings == warnings
  }

  /** What the actions of the runs below keep. */
  ghost predicate Follows(limits: map<string, Limit>, L: Ledger, k: string, run: seq<Action>, next: seq<Action>) {
    && (Atomic(limits, L, run, k) ==> Atomic(limits, L, next, k))
    && After(limits, L, next).ledger.warned == After(limits, L, run).ledger.warned
  }

  function Paid(k: string): Event {
    Event(false, Identity(k, "", ""), 1.0, false)
  }

  function Job(k: string): Task {
    Task(1.0, k, [k], None)
  }

  lemma TenantScopes(k: string)
    requires k != ""
    ensures ScopeKeys(Identity(k, "", "")) == [k]
  {
  }

  lemma OneMore(limits: map<string, Limit>, L: Ledger, run: seq<Action>, a: Action) returns (next: seq<Action>)
    ensures next == run + [a] && next != [] && Front(next) == run && Last(next) == a
    ensures After(limits, L, next) == Step(limits, After(limits, L, run), a)
  {
    next := run + [a];
  }

  lemma DemoArrives(
    limits: map<string, Limit>, L: Ledger, k: string, run: seq<Action>, spent: real, n: Tally, tasks: seq<Task>,
    warnings: seq<Event>) returns (next: seq<Action>)
    requires Stands(limits, L, k, run, spent, n, tasks, warnings)
    requires spent < limits[k].limitUSD && spent + Copies(1.0, n.held) + 1.0 <= limits[k].limitUSD
    ensures Stands(limits, L, k, next, spent, n.(inFlight := n.inFlight + 1, held := n.held + 1), tasks, warnings)
    ensures tasks == [] ==> Follows(limits, L, k, run, next)
    ensures After(limits, L, next).ledger.warned == After(limits, L, run).ledger.warned
  {
    var s, id := After(limits, L, run), Identity(k, "", "");
    next := OneMore(limits, L, run, Arrive(id));
    TenantScopes(k);
    ReservationsMatch(limits, L, run, k, 1.0);
    ArriveReserves(limits, s, id, k);
    ReserveWarned(limits, s.ledger, [k]);
    assert Admits(limits, s.ledger, [k]);
  }

  lemma BeginJob(limits: map<string, Limit>, s: System, k: string)
    requires k != "" && s.tasks == []
    ensures var r := Step(limits, s, Begin(Paid(k)));
            && r.tasks == [Job(k)] && r.warnings == s.warnings && r.ledger.warned == s.ledger.warned
            && r.ledger.spent == s.ledger.spent
  {
    TenantScopes(k);
    BeginAdds(limits, s, Paid(k), k);
    ReconcileWarned(limits, s.ledger, [k], 1.0, true);
  }

  lemma CountJob(limits: map<string, Limit>, s: System, k: string, n: Tally)
    requires k != "" && n.inFlight > 0
    ensures CallOn(Begin(Paid(k)), k)
    ensures Count(limits, s, Begin(Paid(k)), k, n) ==
            Tally(n.inFlight - 1, Less(n.held), n.surplus, if n.held == 0 then n.unreserved + 1 else n.unreserved)
  {
    TenantScopes(k);
  }

  lemma DemoBegins(
    limits: map<string, Limit>, L: Ledger, k: string, run: seq<Action>, spent: real, n: Tally, warnings: seq<Event>)
    returns (next: seq<Action>)
    requires Stands(limits, L, k, run, spent, n, [], warnings) && n.inFlight > 0
    ensures var m := Tally(n.inFlight - 1, Less(n.held), n.surplus, if n.held == 0 then n.unreserved + 1 else n.unreserved);
            Stands(limits, L, k, next, spent, m, [Job(k)], warnings)
    ensures Follows(limits, L, k, run, next)
  {
    next := OneMore(limits, L, run, Begin(Paid(k)));
    BeginJob(limits, After(limits, L, run), k);
    CountJob(limits, After(limits, L, run), k, n);
  }

  lemma LastSpend(limits: map<string, Limit>, s: System, k: string)
    requires k in limits && limits[k].warnAt > 0.0 && s.tasks == [Job(k)]
    ensures var r := Step(limits, s, Spend(0));
            var due := k !in s.ledger.warned && At(s.ledger.spent, k) + 1.0 >= limits[k].limitUSD * limits[k].warnAt;
            && At(r.ledger.spent, k) == At(s.ledger.spent, k) + 1.0 && r.ledger.warned == s.ledger.warned
            && r.tasks == (if due then [Job(k).(todo := [], warn := Some(k))] else []) && r.warnings == s.warnings
  {
    assert [k][1..] == [] && RemoveAt(s.tasks, 0) == [];
  }

  lemma DemoSpends(
    limits: map<string, Limit>, L: Ledger, k: string, run: seq<Action>, spent: real, n: Tally, warnings: seq<Event>)
    returns (next: seq<Action>)
    requires Stands(limits, L, k, run, spent, n, [Job(k)], warnings) && limits[k].warnAt > 0.0
    ensures var due := k !in After(limits, L, run).ledger.warned && spent + 1.0 >= limits[k].limitUSD * limits[k].warnAt;
            Stands(limits, L, k, next, spent + 1.0, n, if due then [Job(k).(todo := [], warn := Some(k))] else [], warnings)
    ensures Follows(limits, L, k, run, next)
  {
    next := OneMore(limits, L, run, Spend(0));
    LastSpend(limits, After(limits, L, run), k);
  }

  lemma DemoWarns(limits: map<string, Limit>, L: Ledger, k: string, run: seq<Action>, spent: real, n: Tally)
    returns (next: seq<Action>)
    requires Stands(limits, L, k, run, spent, n, [Job(k).(todo := [], warn := Some(k))], [])
    ensures Stands(limits, L, k, next, spent, n, [], [Warning(k)])
    ensures Atomic(limits, L, run, k) ==> Atomic(limits, L, next, k)
    ensures k in After(limits, L, next).ledger.warned
  {
    next := OneMore(limits, L, run, Warn(0));
  }

  lemma DemoDelivers(limits: map<string, Limit>, L: Ledger, k: string, run: seq<Action>, spent: real, n: Tally)
    returns (next: seq<Action>)
    requires Stands(limits, L, k, run, spent, n, [], [Warning(k)])
    ensures Stands(limits, L, k, next, spent, n.(held := Less(n.held), surplus := n.surplus + 1), [], [])
    ensures Follows(limits, L, k, run, next)
  {
    next := OneMore(limits, L, run, Deliver(0));
    TenantScopes(k);
    var s := After(limits, L, run);
    DeliverReleases(limits, s, 0, k);
    ReconcileWarned(limits, s.ledger, [k], 0.0, false);
  }

  /** The first request of a tenant reserves nothing: there is no average yet. */
  lemma FirstArrives(limits: map<string, Limit>, k: string)
    requires k != "" && k in limits && limits[k].limitUSD > 0.0
    ensures Admits(limits, EMPTY, [k])
    ensures Step(limits, System(EMPTY, [], []), Arrive(Identity(k, "", ""))) ==
            System(EMPTY.(reserved := map[k := 0.0]), [], [])
  {
    TenantScopes(k);
    assert Front([k]) == [] && Last([k]) == k;
    assert Reserve(limits, EMPTY, []) == EMPTY;
    assert EMPTY.reserved[k := 0.0] == map[k := 0.0];
  }

  lemma FirstAverage()
    ensures Reconciled(Account(0.0, 0.0, 0), 1.0, true) == Account(0.0, 1.0, 1)
  {
    assert (1.0 - 0.0) / (0 + 1) as real == 1.0;
  }

  /** The first call of a tenant, from an empty ledger: it is paid, and the average settles on its cost. */
  lemma FirstCall(limits: map<string, Limit>, k: string) returns (run: seq<Action>)
    requires k != "" && k in limits && limits[k].limitUSD == 3.0 && 0.4 < limits[k].warnAt <= 1.0
    ensures var s := After(limits, EMPTY, run);
            && s.tasks == [] && s.warnings == [] && Warm(limits, s.ledger, k, 1.0)
            && At(s.ledger.spent, k) == 1.0 && s.ledger.warned == {}
  {
    run := OneMore(limits, EMPTY, [], Arrive(Identity(k, "", "")));
    FirstArrives(limits, k);
    var s := After(limits, EMPTY, run);
    run := OneMore(limits, EMPTY, run, Begin(Paid(k)));
    TenantScopes(k);
    BeginJob(limits, s, k);
    BeginAdds(limits, s, Paid(k), k);
    FirstAverage();
    assert AccountOf(s.ledger, k) == Account(0.0, 0.0, 0);
    var t := After(limits, EMPTY, run);
    run := OneMore(limits, EMPTY, run, Spend(0));
    LastSpend(limits, t, k);
    assert limits[k].limitUSD * limits[k].warnAt == 3.0 * limits[k].warnAt;
  }

  lemma {:induction false} Continues(limits: map<string, Limit>, L: Ledger, first: seq<Action>, run: seq<Action>)
    requires var s := After(limits, L, first); s.tasks == [] && s.warnings == []
    ensures After(limits, L, first + run) == After(limits, After(limits, L, first).ledger, run)
  {
    if run == [] {
      assert first + run == first;
    } else {
      Continues(limits, L, first, Front(run));
      assert Front(first + run) == first + Front(run);
    }
  }

  /** A run that begins with an empty ledger, warms the scope up, and then goes on as `run`. */
  ghost predicate Warmed(limits: map<string, Limit>, k: string, first: seq<Action>, run: seq<Action>, spent: real) {
    && var s := After(limits, EMPTY, first);
    && s.tasks == [] && s.warnings == [] && Warm(limits, s.ledger, k, 1.0)
    && Uniform(run, k, 1.0) && Dispatchers(limits, s.ledger, run, 1) && Answered(limits, s.ledger, run, k)
    && At(After(limits, EMPTY, first + run).ledger.spent, k) == spent
  }

  lemma StandsWarmed(
    limits: map<string, Limit>, k: string, first: seq<Action>, run: seq<Action>, spent: real, n: Tally, ws: seq<Event>)
    requires var s := After(limits, EMPTY, first);
             s.tasks == [] && s.warnings == [] && Stands(limits, s.ledger, k, run, spent, n, [], ws)
    ensures Warmed(limits, k, first, run, spent) && Surplus(limits, After(limits, EMPTY, first).ledger, run, k) == n.surplus
  {
    Continues(limits, EMPTY, first, run);
  }

  lemma FewCopies()
    ensures Copies(1.0, 0) == 0.0 && Copies(1.0, 1) == 1.0
  {
    assert Copies(1.0, 1) == Copies(1.0, 0) + 1.0;
  }

  /** A request arriving between the sections of another event is admitted on budget that is already gone:
      the bound of OneDispatcher is attained. With a limit of 3 and calls of 1, four are paid, although no
      event but those of the calls has been handled. */
  lemma OvershootHappens(limits: map<string, Limit>, k: string) returns (first: seq<Action>, run: seq<Action>)
    requires k != "" && k in limits && limits[k] == Limit(3.0, 1.0)
    ensures Warmed(limits, k, first, run, limits[k].limitUSD + 1.0)
    ensures Surplus(limits, After(limits, EMPTY, first).ledger, run, k) == 0
  {
    first := FirstCall(limits, k);
    var L := After(limits, EMPTY, first).ledger;
    FewCopies();
    run := DemoArrives(limits, L, k, [], 1.0, Tally(0, 0, 0, 0), [], []);
    run := DemoBegins(limits, L, k, run, 1.0, Tally(1, 1, 0, 0), []);
    run := DemoArrives(limits, L, k, run, 1.0, Tally(0, 0, 0, 0), [Job(k)], []);
    run := DemoArrives(limits, L, k, run, 1.0, Tally(1, 1, 0, 0), [Job(k)], []);
    run := DemoSpends(limits, L, k, run, 1.0, Tally(2, 2, 0, 0), []);
    run := DemoBegins(limits, L, k, run, 2.0, Tally(2, 2, 0, 0), []);
    run := DemoSpends(limits, L, k, run, 2.0, Tally(1, 1, 0, 0), []);
    run := DemoWarns(limits, L, k, run, 3.0, Tally(1, 1, 0, 0));
    run := DemoBegins(limits, L, k, run, 3.0, Tally(1, 1, 0, 0), [Warning(k)]);
    run := DemoSpends(limits, L, k, run, 3.0, Tally(0, 0, 0, 0), [Warning(k)]);
    StandsWarmed(limits, k, first, run, 4.0, Tally(0, 0, 0, 0), [Warning(k)]);
  }

  /** A tenant's own warning overshoots its ceiling even when events are atomic: it comes back as an event
      that releases the reservation of a call still in flight, and one request too many is admitted. The
      bound of AtomicCeiling is attained. */
  lemma WarningOvershoots(limits: map<string, Limit>, k: string) returns (first: seq<Action>, run: seq<Action>)
    requires k != "" && k in limits && limits[k] == Limit(3.0, 0.5)
    ensures Warmed(limits, k, first, run, limits[k].limitUSD + 1.0)
    ensures var L := After(limits, EMPTY, first).ledger; Atomic(limits, L, run, k) && Surplus(limits, L, run, k) == 1
  {
    first := FirstCall(limits, k);
    var L := After(limits, EMPTY, first).ledger;
    FewCopies();
    run := DemoArrives(limits, L, k, [], 1.0, Tally(0, 0, 0, 0), [], []);
    run := DemoArrives(limits, L, k, run, 1.0, Tally(1, 1, 0, 0), [], []);
    run := DemoBegins(limits, L, k, run, 1.0, Tally(2, 2, 0, 0), []);
    run := DemoSpends(limits, L, k, run, 1.0, Tally(1, 1, 0, 0), []);
    run := DemoWarns(limits, L, k, run, 2.0, Tally(1, 1, 0, 0));
    run := DemoDelivers(limits, L, k, run, 2.0, Tally(1, 1, 0, 0));
    run := DemoArrives(limits, L, k, run, 2.0, Tally(1, 0, 1, 0), [], []);
    run := DemoBegins(limits, L, k, run, 2.0, Tally(2, 1, 1, 0), []);
    run := DemoSpends(limits, L, k, run, 2.0, Tally(1, 0, 1, 0), []);
    run := DemoBegins(limits, L, k, run, 3.0, Tally(1, 0, 1, 0), []);
    run := DemoSpends(limits, L, k, run, 3.0, Tally(0, 0, 1, 1), []);
    StandsWarmed(limits, k, first, run, 4.0, Tally(0, 0, 1, 1), []);
  }
}
