/** Runs of the budget plugin, locked section by locked section: an event that has been averaged but not yet
    spent on all its scopes is a `Task`, and a warning that the plugin publishes comes back to it as an
    event of its own. */
module BudgetRuns {
  import opened Seqs
  import opened Budget

  // ----- interleaved runs

  /** A priced event after its averaging section: the scopes it has yet to be spent on, and the scope it
      has found to be over its threshold but not yet marked. */
  datatype Task = Task(cost: real, tenant: string, todo: seq<string>, warn: Option<string>)

  /** `warnings` are published and on their way back to the plugin. */
  datatype System = System(ledger: Ledger, tasks: seq<Task>, warnings: seq<Event>)

  datatype Action =
    | Arrive(id: Identity)
    | Begin(ev: Event)
    | Spend(task: nat)
    | Warn(task: nat)
    | Deliver(warning: nat)
    | Reset(key: string)

  predicate Done(t: Task) {
    t.todo == [] && t.warn.None?
  }

  function Put(tasks: seq<Task>, i: nat, t: Task): seq<Task>
    requires i < |tasks|
  {
    if Done(t) then RemoveAt(tasks, i) else tasks[i := t]
  }

  /** The spend section of a task, on its next scope. */
  function Spent(limits: map<string, Limit>, s: System, i: nat): System
    requires i < |s.tasks| && s.tasks[i].todo != []
  {
    var t := s.tasks[i];
    var k := t.todo[0];
    var L := SpendOn(s.ledger, k, t.cost);
    s.(ledger := L, tasks := Put(s.tasks, i, t.(todo := t.todo[1..], warn := if WarnDue(limits, L, k) then Some(k) else None)))
  }

  function Step(limits: map<string, Limit>, s: System, a: Action): System {
    match a
    case Arrive(id) =>
      if Admits(limits, s.ledger, ScopeKeys(id)) then s.(ledger := Reserve(limits, s.ledger, ScopeKeys(id))) else s
    case Begin(ev) =>
      if ev.shadow then s else
        var ks := ScopeKeys(ev.id);
        var L := Reconcile(limits, s.ledger, ks, ev.cost, Priced(ev));
        s.(ledger := L, tasks := if Priced(ev) && ks != [] then s.tasks + [Task(ev.cost, ev.id.tenant, ks, None)] else s.tasks)
    case Spend(i) =>
      if i < |s.tasks| && s.tasks[i].todo != [] && s.tasks[i].warn.None? then Spent(limits, s, i) else s
    case Warn(i) =>
      if i < |s.tasks| && s.tasks[i].warn.Some? then
        var t := s.tasks[i];
        System(MarkWarned(s.ledger, t.warn.value), Put(s.tasks, i, t.(warn := None)), s.warnings + [Warning(t.tenant)])
      else s
    case Deliver(i) =>
      if i < |s.warnings| then
        s.(ledger := Reconcile(limits, s.ledger, ScopeKeys(s.warnings[i].id), 0.0, false), warnings := RemoveAt(s.warnings, i))
      else s
    case Reset(k) =>
      s.(ledger := Forget(s.ledger, k))
  }

  function After(limits: map<string, Limit>, L: Ledger, run: seq<Action>): System {
    if run == [] then System(L, [], []) else Step(limits, After(limits, L, Front(run)), Last(run))
  }

  /** Cost that has been averaged into k but not yet spent on it. */
  function Unspent(tasks: seq<Task>, k: string): real {
    if tasks == [] then 0.0
    else Unspent(Front(tasks), k) + if k in Last(tasks).todo then Last(tasks).cost else 0.0
  }

  predicate Charges(a: Action, k: string) {
    a.Begin? && !a.ev.shadow && Priced(a.ev) && k in ScopeKeys(a.ev.id)
  }

  /** Sum and number of the priced, non-shadow events of a run that belong to scope k. */
  function Billed(run: seq<Action>, k: string): real {
    if run == [] then 0.0 else Billed(Front(run), k) + if Charges(Last(run), k) then Last(run).ev.cost else 0.0
  }

  function BilledCalls(run: seq<Action>, k: string): nat {
    if run == [] then 0 else BilledCalls(Front(run), k) + if Charges(Last(run), k) then 1 else 0
  }

  lemma {:induction false} UnspentConcat(a: seq<Task>, b: seq<Task>, k: string)
    ensures Unspent(a + b, k) == Unspent(a, k) + Unspent(b, k)
  {
    if b == [] {
      assert a + b == a;
    } else {
      UnspentConcat(a, Front(b), k);
      assert Front(a + b) == a + Front(b);
    }
  }

  function UnspentOf(t: Task, k: string): real {
    if k in t.todo then t.cost else 0.0
  }

  lemma UnspentAt(tasks: seq<Task>, i: nat, k: string)
    requires i < |tasks|
    ensures Unspent(tasks, k) == Unspent(tasks[..i], k) + UnspentOf(tasks[i], k) + Unspent(tasks[i + 1..], k)
  {
    assert tasks == tasks[..i] + [tasks[i]] + tasks[i + 1..];
    UnspentConcat(tasks[..i] + [tasks[i]], tasks[i + 1..], k);
    UnspentConcat(tasks[..i], [tasks[i]], k);
    assert Front([tasks[i]]) == [];
  }

  /** Replacing or removing one task changes the unspent cost by the difference of that task. */
  lemma UnspentUpdate(tasks: seq<Task>, i: nat, t: Task, k: string)
    requires i < |tasks|
    ensures Unspent(tasks[i := t], k) == Unspent(tasks, k) - UnspentOf(tasks[i], k) + UnspentOf(t, k)
    ensures Unspent(RemoveAt(tasks, i), k) == Unspent(tasks, k) - UnspentOf(tasks[i], k)
  {
    UnspentAt(tasks, i, k);
    UnspentAt(tasks[i := t], i, k);
    assert tasks[i := t][..i] == tasks[..i] && tasks[i := t][i + 1..] == tasks[i + 1..];
    UnspentConcat(tasks[..i], tasks[i + 1..], k);
  }

  predicate TasksDistinct(tasks: seq<Task>) {
    forall i :: 0 <= i < |tasks| ==> Distinct(tasks[i].todo) && !Done(tasks[i])
  }

  lemma {:induction false} RunTasksDistinct(limits: map<string, Limit>, L: Ledger, run: seq<Action>)
    ensures TasksDistinct(After(limits, L, run).tasks)
  {
    if run != [] {
      RunTasksDistinct(limits, L, Front(run));
      if Last(run).Begin? {
        ScopeKeysDistinct(Last(run).ev.id);
      }
    }
  }

  lemma UnspentPut(tasks: seq<Task>, i: nat, t: Task, k: string)
    requires i < |tasks|
    ensures Unspent(Put(tasks, i, t), k) == Unspent(tasks, k) - UnspentOf(tasks[i], k) + UnspentOf(t, k)
  {
    UnspentUpdate(tasks, i, t, k);
  }

  /** A spend section moves cost from unspent to spent, on the next scope of its task only. */
  lemma SpendMoves(limits: map<string, Limit>, s: System, i: nat, k: string)
    requires TasksDistinct(s.tasks)
    ensures var r := Step(limits, s, Spend(i));
            && At(r.ledger.spent, k) + Unspent(r.tasks, k) == At(s.ledger.spent, k) + Unspent(s.tasks, k)
            && r.ledger == s.ledger.(spent := r.ledger.spent) && r.warnings == s.warnings
  {
    if i < |s.tasks| && s.tasks[i].todo != [] && s.tasks[i].warn.None? {
      var t := s.tasks[i];
      var L := SpendOn(s.ledger, t.todo[0], t.cost);
      var u := t.(todo := t.todo[1..], warn := if WarnDue(limits, L, t.todo[0]) then Some(t.todo[0]) else None);
      UnspentPut(s.tasks, i, u, k);
      assert k in t.todo <==> k == t.todo[0] || k in t.todo[1..];
    }
  }

  /** Marking and publishing a warning moves no money. */
  lemma WarnMoves(limits: map<string, Limit>, s: System, i: nat, k: string)
    ensures var r := Step(limits, s, Warn(i));
            Unspent(r.tasks, k) == Unspent(s.tasks, k) && r.ledger == s.ledger.(warned := r.ledger.warned)
  {
    if i < |s.tasks| && s.tasks[i].warn.Some? {
      UnspentPut(s.tasks, i, s.tasks[i].(warn := None), k);
    }
  }

  /** A warning that comes back releases a reservation like the event of a failed call. */
  lemma DeliverReleases(limits: map<string, Limit>, s: System, i: nat, k: string)
    ensures var r, a := Step(limits, s, Deliver(i)), AccountOf(s.ledger, k);
            && r.ledger.spent == s.ledger.spent && r.tasks == s.tasks
            && AccountOf(r.ledger, k) ==
               if i < |s.warnings| && k in ScopeKeys(s.warnings[i].id) && k in limits then Reconciled(a, 0.0, false) else a
  {
    if i < |s.warnings| {
      ScopeKeysDistinct(s.warnings[i].id);
      ReconcileAt(limits, s.ledger, ScopeKeys(s.warnings[i].id), 0.0, false, k);
    }
  }

  /** An event touches the account of k at most once, and nothing else of k before its spend. */
  lemma BeginAdds(limits: map<string, Limit>, s: System, ev: Event, k: string)
    ensures var r, a := Step(limits, s, Begin(ev)), AccountOf(s.ledger, k);
            && r.ledger.spent == s.ledger.spent
            && Unspent(r.tasks, k) == Unspent(s.tasks, k) + (if Charges(Begin(ev), k) then ev.cost else 0.0)
            && AccountOf(r.ledger, k) ==
               if !ev.shadow && k in ScopeKeys(ev.id) && k in limits then Reconciled(a, ev.cost, Priced(ev)) else a
  {
    var ks := ScopeKeys(ev.id);
    ScopeKeysDistinct(ev.id);
    ReconcileAt(limits, s.ledger, ks, ev.cost, Priced(ev), k);
    var t := Task(ev.cost, ev.id.tenant, ks, None);
    UnspentConcat(s.tasks, [t], k);
    assert Front([t]) == [];
  }

  lemma ArriveReserves(limits: map<string, Limit>, s: System, id: Identity, k: string)
    ensures var r, a := Step(limits, s, Arrive(id)), AccountOf(s.ledger, k);
            && r.ledger.spent == s.ledger.spent && r.tasks == s.tasks
            && AccountOf(r.ledger, k) ==
               if Admits(limits, s.ledger, ScopeKeys(id)) && k in ScopeKeys(id) && k in limits
               then a.(reserved := a.reserved + a.avg) else a
  {
    ScopeKeysDistinct(id);
    ReserveAt(limits, s.ledger, ScopeKeys(id), k);
  }

  predicate NeverReset(run: seq<Action>, k: string) {
    Reset(k) !in run
  }

  /** No cost is lost or counted twice, however sections interleave: what scope k has been spent plus
      what is still on its way is exactly the priced non-shadow events that name k. */
  lemma {:induction false} SpendConserved(limits: map<string, Limit>, run: seq<Action>, k: string)
    requires NeverReset(run, k)
    ensures var s := After(limits, EMPTY, run);
            At(s.ledger.spent, k) + Unspent(s.tasks, k) == Billed(run, k)
  {
    if run != [] {
      var front, a := Front(run), Last(run);
      SpendConserved(limits, front, k);
      var s := After(limits, EMPTY, front);
      match a
      case Arrive(id) => ArriveReserves(limits, s, id, k);
      case Begin(ev) => BeginAdds(limits, s, ev, k);
      case Spend(i) => RunTasksDistinct(limits, EMPTY, front); SpendMoves(limits, s, i, k);
      case Warn(i) => WarnMoves(limits, s, i, k);
      case Deliver(i) => DeliverReleases(limits, s, i, k);
      case Reset(j) => assert Reset(j) in run;
    }
  }

  /** Once every event has finished, spent is exact. */
  lemma SpentAtQuiescence(limits: map<string, Limit>, run: seq<Action>, k: string)
    requires NeverReset(run, k) && After(limits, EMPTY, run).tasks == []
    ensures At(After(limits, EMPTY, run).ledger.spent, k) == Billed(run, k)
  {
    SpendConserved(limits, run, k);
  }

  /** Average times calls. */
  function Mass(a: Account): real {
    a.avg * a.calls as real
  }

  lemma MassStep(a: Account, cost: real)
    ensures Mass(Reconciled(a, cost, true)) == Mass(a) + cost
    ensures Mass(Reconciled(a, cost, false)) == Mass(a)
  {
    var m := (a.calls + 1) as real;
    assert ((cost - a.avg) / m) * m == cost - a.avg;
    assert a.avg * m == a.avg * a.calls as real + a.avg;
  }

  lemma MassOfStep(limits: map<string, Limit>, s: System, a: Action, k: string)
    requires TasksDistinct(s.tasks) && k in limits && a != Reset(k)
    ensures var b, d := AccountOf(s.ledger, k), AccountOf(Step(limits, s, a).ledger, k);
            && Mass(d) == Mass(b) + (if Charges(a, k) then a.ev.cost else 0.0)
            && d.calls == b.calls + if Charges(a, k) then 1 else 0
  {
    match a
    case Arrive(id) => ArriveReserves(limits, s, id, k);
    case Begin(ev) => BeginAdds(limits, s, ev, k); MassStep(AccountOf(s.ledger, k), ev.cost);
    case Spend(i) => SpendMoves(limits, s, i, k);
    case Warn(i) => WarnMoves(limits, s, i, k);
    case Deliver(i) => DeliverReleases(limits, s, i, k); MassStep(AccountOf(s.ledger, k), 0.0);
    case Reset(j) =>
  }

  /** On a limited scope the running average is the true mean of everything billed: average times
      calls equals spent plus the cost between the averaging section and that scope's spend section. */
  lemma {:induction false} AverageBalanced(limits: map<string, Limit>, run: seq<Action>, k: string)
    requires NeverReset(run, k) && k in limits
    ensures var s := After(limits, EMPTY, run);
            && AccountOf(s.ledger, k).calls == BilledCalls(run, k)
            && Mass(AccountOf(s.ledger, k)) == Billed(run, k) == At(s.ledger.spent, k) + Unspent(s.tasks, k)
  {
    SpendConserved(limits, run, k);
    if run != [] {
      AverageBalanced(limits, Front(run), k);
      RunTasksDistinct(limits, EMPTY, Front(run));
      MassOfStep(limits, After(limits, EMPTY, Front(run)), Last(run), k);
    }
  }

  // ----- hierarchy

  /** Every event of the run has a tenant, and colon-free tenant IDs. */
  predicate WellNamed(run: seq<Action>) {
    forall a :: a in run && a.Begin? ==> a.ev.id.tenant != "" && ColonFree(a.ev.id.tenant)
  }

  lemma {:induction false} BilledBelowTenant(run: seq<Action>, t: string, x: string)
    requires WellNamed(run) && ColonFree(t)
    ensures Billed(run, t + ":" + x) <= Billed(run, t)
  {
    if run != [] {
      assert Last(run) in run;
      BilledBelowTenant(Front(run), t, x);
      if Charges(Last(run), t + ":" + x) {
        SubScopeChargesTenant(Last(run).ev.id, t, x);
      }
    }
  }

  /** At quiescence no team or user scope has been spent more than its tenant. */
  lemma SubScopeBelowTenant(limits: map<string, Limit>, run: seq<Action>, t: string, x: string)
    requires WellNamed(run) && ColonFree(t)
    requires NeverReset(run, t) && NeverReset(run, t + ":" + x) && After(limits, EMPTY, run).tasks == []
    ensures var L := After(limits, EMPTY, run).ledger; At(L.spent, t + ":" + x) <= At(L.spent, t)
  {
    SpendConserved(limits, run, t);
    SpendConserved(limits, run, t + ":" + x);
    BilledBelowTenant(run, t, x);
  }

  /** Colons in IDs break the hierarchy: a tenant named "a:b" spends on what is also team "b" of "a". */
  lemma ColonBreaksHierarchy()
    ensures var run := [Begin(Event(false, Identity("a:b", "", ""), 1.0, false)), Spend(0)];
            var s := After(map[], EMPTY, run);
            s.tasks == [] && At(s.ledger.spent, "a" + ":" + "b") == 1.0 && At(s.ledger.spent, "a") == 0.0
  {
    var ev := Event(false, Identity("a:b", "", ""), 1.0, false);
    var run := [Begin(ev), Spend(0)];
    assert Front(run) == [Begin(ev)] && Front([Begin(ev)]) == [];
    var ks := ScopeKeys(ev.id);
    assert ks == ["a:b"] && Front(ks) == [];
    assert Reconcile(map[], EMPTY, ks, 1.0, true) == Reconcile(map[], EMPTY, [], 1.0, true) == EMPTY;
    var s := System(EMPTY, [], []);
    var t := Step(map[], s, Begin(ev));
    assert !ev.shadow && Priced(ev);
    assert t.tasks == s.tasks + [Task(1.0, "a:b", ks, None)] == [Task(1.0, "a:b", ks, None)];
    assert After(map[], EMPTY, [Begin(ev)]) == t;
    assert "a" + ":" + "b" == "a:b" && |"a"| != |"a:b"|;
  }
}
