/** Which scopes an identity charges and is held to, written out, and what that means for the ledger: when a
    request is blocked, what an event spends where, when a scope warns, and what a reset forgets. */
module BudgetScopes {
  import opened Seqs
  import opened Budget
  import opened BudgetRuns

  // ----- the three keys

  predicate IsUserKey(id: Identity, k: string) {
    && id.user != ""
    && (id.team != "" ==> k == id.tenant + ":" + id.team + ":" + id.user)
    && (id.team == "" ==> k == id.tenant + ":" + id.user)
  }

  predicate IsTeamKey(id: Identity, k: string) {
    id.team != "" && k == id.tenant + ":" + id.team
  }

  predicate IsTenantKey(id: Identity, k: string) {
    id.tenant != "" && k == id.tenant
  }

  predicate IsKey(id: Identity, k: string) {
    IsUserKey(id, k) || IsTeamKey(id, k) || IsTenantKey(id, k)
  }

  /** The scopes of an identity are its user, its team and its tenant, as far as it has them. */
  lemma ScopesAre(id: Identity, k: string)
    ensures k in ScopeKeys(id) <==> IsKey(id, k)
  {
  }

  /** They come from most to least specific. */
  lemma ScopesOrdered(id: Identity, i: nat, j: nat)
    requires i < j < |ScopeKeys(id)|
    ensures var a, b := ScopeKeys(id)[i], ScopeKeys(id)[j];
            (IsUserKey(id, a) && !IsUserKey(id, b)) || (IsTeamKey(id, a) && IsTenantKey(id, b))
  {
  }

  // ----- admission

  /** Scope k has used up its limit, or one more call of the usual cost would. */
  predicate UsedUp(limits: map<string, Limit>, L: Ledger, k: string) {
    k in limits &&
    (limits[k].limitUSD <= At(L.spent, k) || limits[k].limitUSD < At(L.spent, k) + At(L.reserved, k) + At(L.avgCost, k))
  }

  /** A request is admitted exactly when none of the keys of its identity is used up. */
  lemma AdmittedIff(limits: map<string, Limit>, L: Ledger, id: Identity)
    ensures Admits(limits, L, ScopeKeys(id)) <==> forall k :: IsKey(id, k) ==> !UsedUp(limits, L, k)
  {
    forall k ensures k in ScopeKeys(id) <==> IsKey(id, k) {
      ScopesAre(id, k);
    }
  }

  /** An exhausted user, team or tenant blocks its requests. */
  lemma ExhaustedBlocks(limits: map<string, Limit>, L: Ledger, id: Identity, k: string)
    requires IsKey(id, k) && k in limits && At(L.spent, k) >= limits[k].limitUSD
    ensures !Admits(limits, L, ScopeKeys(id))
  {
    ScopesAre(id, k);
  }

  /** An admitted request reserves the average cost on the limited ones among its keys, and does nothing else. */
  lemma ReservesOn(limits: map<string, Limit>, L: Ledger, id: Identity, k: string)
    ensures var M := Reserve(limits, L, ScopeKeys(id));
            && At(M.reserved, k) == At(L.reserved, k) + (if IsKey(id, k) && k in limits then At(L.avgCost, k) else 0.0)
            && M.spent == L.spent && M.avgCost == L.avgCost && CallsAt(M.calls, k) == CallsAt(L.calls, k)
  {
    ScopesAre(id, k);
    ScopeKeysDistinct(id);
    ReserveAt(limits, L, ScopeKeys(id), k);
  }

  // ----- events

  /** The event is charged to scope k. */
  predicate Pays(ev: Event, k: string) {
    !ev.shadow && !ev.failed && ev.cost > 0.0 && IsKey(ev.id, k)
  }

  function Threshold(l: Limit): real {
    if l.warnAt > 0.0 then l.limitUSD * l.warnAt else l.limitUSD * 0.8
  }

  ghost predicate Marks(limits: map<string, Limit>, M: Ledger, k: string) {
    k in limits && At(M.spent, k) >= Threshold(limits[k])
  }

  lemma SpendAndWarnAt(limits: map<string, Limit>, L: Ledger, j: string, cost: real, k: string)
    ensures var M := SpendAndWarn(limits, L, j, cost);
            && At(M.spent, k) == At(L.spent, k) + (if j == k then cost else 0.0)
            && M.reserved == L.reserved && M.avgCost == L.avgCost && M.calls == L.calls
            && (k in M.warned <==> k in L.warned || (j == k && Marks(limits, M, k)))
  {
  }

  lemma {:induction false} SpendAllAt(limits: map<string, Limit>, L: Ledger, scopes: seq<string>, cost: real, k: string)
    requires Distinct(scopes)
    ensures var M := SpendAll(limits, L, scopes, cost);
            && At(M.spent, k) == At(L.spent, k) + (if k in scopes then cost else 0.0)
            && M.reserved == L.reserved && M.avgCost == L.avgCost && M.calls == L.calls
            && (k in M.warned <==> k in L.warned || (k in scopes && Marks(limits, M, k)))
  {
    if scopes != [] {
      SpendAllAt(limits, L, Front(scopes), cost, k);
      SpendAndWarnAt(limits, SpendAll(limits, L, Front(scopes), cost), Last(scopes), cost, k);
      assert k in scopes <==> k in Front(scopes) || k == Last(scopes);
    }
  }

  /** An event raises what is spent on the user, the team and the tenant it names by its cost, and on no other
      scope; it must have succeeded and cost something. It marks a scope the first time its threshold, by
      default four fifths of the limit, is reached. */
  lemma EventSpends(limits: map<string, Limit>, L: Ledger, ev: Event, k: string)
    ensures var M := HandleEvent(limits, L, ev);
            && At(M.spent, k) == At(L.spent, k) + (if Pays(ev, k) then ev.cost else 0.0)
            && (k in M.warned <==> k in L.warned || (Pays(ev, k) && k in limits && At(M.spent, k) >= Threshold(limits[k])))
  {
    var ks := ScopeKeys(ev.id);
    ScopesAre(ev.id, k);
    ScopeKeysDistinct(ev.id);
    ReconcileWarned(limits, L, ks, ev.cost, Priced(ev));
    ReconcileAt(limits, L, ks, ev.cost, Priced(ev), k);
    SpendAllAt(limits, Reconcile(limits, L, ks, ev.cost, Priced(ev)), ks, ev.cost, k);
  }

  /** What one event does to the books of a scope: it gives back one average, down to nothing, and if it is
      charged counts as one call in the average. */
  ghost predicate Books(a: Account, cost: real, paid: bool, b: Account) {
    && (a.reserved <= 0.0 ==> b.reserved == a.reserved)
    && (a.reserved > 0.0 ==> b.reserved == if a.reserved < a.avg then 0.0 else a.reserved - a.avg)
    && b.calls == a.calls + (if paid then 1 else 0)
    && (paid ==> Mass(b) == Mass(a) + cost)
    && (!paid ==> b.avg == a.avg)
  }

  lemma ReconciledBooks(a: Account, cost: real, paid: bool)
    ensures Books(a, cost, paid, Reconciled(a, cost, paid))
  {
    MeanStep(a.avg, a.calls, cost);
  }

  lemma HandledAccount(limits: map<string, Limit>, L: Ledger, ev: Event, k: string)
    ensures AccountOf(HandleEvent(limits, L, ev), k) ==
            if !ev.shadow && IsKey(ev.id, k) && k in limits then Reconciled(AccountOf(L, k), ev.cost, Priced(ev))
            else AccountOf(L, k)
  {
    var ks := ScopeKeys(ev.id);
    ScopesAre(ev.id, k);
    ScopeKeysDistinct(ev.id);
    ReconcileAt(limits, L, ks, ev.cost, Priced(ev), k);
    SpendAllAt(limits, Reconcile(limits, L, ks, ev.cost, Priced(ev)), ks, ev.cost, k);
  }

  /** An event changes the books of the limited scopes that it names, and of no other. */
  lemma EventReconciles(limits: map<string, Limit>, L: Ledger, ev: Event, k: string)
    ensures var a, b := AccountOf(L, k), AccountOf(HandleEvent(limits, L, ev), k);
            if ev.shadow || !IsKey(ev.id, k) || k !in limits then b == a else Books(a, ev.cost, Pays(ev, k), b)
  {
    HandledAccount(limits, L, ev, k);
    ReconciledBooks(AccountOf(L, k), ev.cost, Priced(ev));
  }

  lemma MeanStep(avg: real, n: nat, cost: real)
    ensures (avg + (cost - avg) / (n + 1) as real) * (n + 1) as real == avg * n as real + cost
  {
    var m := (n + 1) as real;
    assert (cost - avg) / m * m == cost - avg;
    assert avg * m == avg * n as real + avg;
  }

  /** The scopes an event newly marks, in order. */
  function NewlyMarked(limits: map<string, Limit>, L: Ledger, scopes: seq<string>, cost: real): seq<string> {
    if scopes == [] then [] else
      NewlyMarked(limits, L, Front(scopes), cost)
      + if Last(scopes) in SpendAll(limits, L, scopes, cost).warned && Last(scopes) !in L.warned then [Last(scopes)] else []
  }

  /** One warning is published for every scope that is newly marked, under the name of the tenant. */
  lemma {:induction false} OneWarningPerMark(limits: map<string, Limit>, L: Ledger, scopes: seq<string>, cost: real, tenant: string)
    requires Distinct(scopes)
    ensures var ws := Published(limits, L, scopes, cost, tenant);
            && |ws| == |NewlyMarked(limits, L, scopes, cost)|
            && forall i :: 0 <= i < |ws| ==>
                 !ws[i].shadow && ws[i].id == Identity(tenant, "", "") && ws[i].cost == 0.0 && ws[i].failed
  {
    if scopes != [] {
      OneWarningPerMark(limits, L, Front(scopes), cost, tenant);
      SpendAllAt(limits, L, Front(scopes), cost, Last(scopes));
    }
  }

  // ----- whole runs

  /** What the events of a run have to pay on scope k, since it was last reset; what was on its way then still
      arrives. */
  function Bill(limits: map<string, Limit>, run: seq<Action>, k: string): real {
    if run == [] then 0.0 else
      var a, before := Last(run), Bill(limits, Front(run), k);
      if a.Begin? && Pays(a.ev, k) then before + a.ev.cost
      else if a.Reset? && a.key == k then Unspent(After(limits, EMPTY, Front(run)).tasks, k)
      else before
  }

  /** In every run, with resets too: what is spent on scope k and still on its way is what the events that name
      it, as user, team or tenant, have to pay. */
  lemma {:induction false} SpentIsBilled(limits: map<string, Limit>, run: seq<Action>, k: string)
    ensures var s := After(limits, EMPTY, run);
            At(s.ledger.spent, k) + Unspent(s.tasks, k) == Bill(limits, run, k)
  {
    if run != [] {
      SpentIsBilled(limits, Front(run), k);
      var s, a := After(limits, EMPTY, Front(run)), Last(run);
      match a
      case Arrive(id) => ArriveReserves(limits, s, id, k);
      case Begin(ev) => ScopesAre(ev.id, k); BeginAdds(limits, s, ev, k);
      case Spend(i) => RunTasksDistinct(limits, EMPTY, Front(run)); SpendMoves(limits, s, i, k);
      case Warn(i) => WarnMoves(limits, s, i, k);
      case Deliver(i) => DeliverReleases(limits, s, i, k);
      case Reset(j) =>
    }
  }

  // ----- resets

  /** A reset makes a scope as new and touches no other. */
  lemma ResetForgets(L: Ledger, j: string, k: string)
    ensures var M := Forget(L, j);
            if j == k then At(M.spent, k) == 0.0 && AccountOf(M, k) == Account(0.0, 0.0, 0) && k !in M.warned
            else At(M.spent, k) == At(L.spent, k) && AccountOf(M, k) == AccountOf(L, k) && (k in M.warned <==> k in L.warned)
  {
  }
}
