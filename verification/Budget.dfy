/** The budget plugin: spend ceilings per identity scope, with reservations for calls in flight.

    `Ledger` is the state behind the plugin's mutex, and the functions on it are its locked sections;
    `Plugin` performs them in place. Money is real, not floating point. */
module Budget {
  import opened Seqs

  datatype Identity = Identity(tenant: string, team: string, user: string)
  datatype Limit = Limit(limitUSD: real, warnAt: real)
  datatype Event = Event(shadow: bool, id: Identity, cost: real, failed: bool)

  datatype Ledger = Ledger(
    spent: map<string, real>, reserved: map<string, real>, avgCost: map<string, real>,
    calls: map<string, nat>, warned: set<string>)

  const EMPTY := Ledger(map[], map[], map[], map[], {})

  function At(m: map<string, real>, k: string): real {
    if k in m then m[k] else 0.0
  }

  function CallsAt(m: map<string, nat>, k: string): nat {
    if k in m then m[k] else 0
  }

  // ----- scopes

  /** Scope keys from most to least specific: user, team, tenant. */
  function ScopeKeys(id: Identity): seq<string> {
    (if id.user == "" then []
     else if id.team != "" then [id.tenant + ":" + id.team + ":" + id.user]
     else [id.tenant + ":" + id.user])
    + (if id.team != "" then [id.tenant + ":" + id.team] else [])
    + (if id.tenant != "" then [id.tenant] else [])
  }

  predicate Distinct(s: seq<string>) {
    forall i, j :: 0 <= i < j < |s| ==> s[i] != s[j]
  }

  /** No identity charges a scope twice, even with colons or empty parts in its IDs. */
  lemma ScopeKeysDistinct(id: Identity)
    ensures Distinct(ScopeKeys(id))
  {
  }

  predicate ColonFree(s: string) {
    ':' !in s
  }

  lemma {:induction false} SplitUnique(a: string, x: string, b: string, y: string)
    requires ColonFree(a) && ColonFree(b) && a + ":" + x == b + ":" + y
    ensures a == b
  {
    var s, t := a + ":" + x, b + ":" + y;
    assert s[|a|] == ':' && t[|b|] == ':';
    assert s[..|a|] == a && t[..|b|] == b;
  }

  /** With colon-free IDs and a tenant, whoever charges a scope below tenant t also charges t. */
  lemma SubScopeChargesTenant(id: Identity, t: string, x: string)
    requires ColonFree(t) && id.tenant != "" && ColonFree(id.tenant) && t + ":" + x in ScopeKeys(id)
    ensures t in ScopeKeys(id)
  {
    var k := t + ":" + x;
    assert k[|t|] == ':';
    assert k != id.tenant;
    var rest := k[|id.tenant| + 1..];
    assert k == id.tenant + ":" + rest;
    SplitUnique(t, x, id.tenant, rest);
  }

  // ----- the locked sections

  predicate Priced(ev: Event) {
    !ev.failed && ev.cost > 0.0
  }

  predicate Exceeded(limits: map<string, Limit>, L: Ledger, scope: string) {
    scope in limits &&
    (At(L.spent, scope) >= limits[scope].limitUSD ||
     At(L.spent, scope) + At(L.reserved, scope) + At(L.avgCost, scope) > limits[scope].limitUSD)
  }

  predicate Admits(limits: map<string, Limit>, L: Ledger, scopes: seq<string>) {
    forall k :: k in scopes ==> !Exceeded(limits, L, k)
  }

  function Reserve(limits: map<string, Limit>, L: Ledger, scopes: seq<string>): Ledger {
    if scopes == [] then L else
      var M, k := Reserve(limits, L, Front(scopes)), Last(scopes);
      if k !in limits then M
      else M.(reserved := M.reserved[k := At(M.reserved, k) + At(M.avgCost, k)])
  }

  /** Release what one call reserved (the current average) and, for a priced event, fold its cost in. */
  function ReconcileScope(limits: map<string, Limit>, L: Ledger, k: string, cost: real, priced: bool): Ledger {
    if k !in limits then L else
      var res, avg := At(L.reserved, k), At(L.avgCost, k);
      var M := if res > 0.0 then L.(reserved := L.reserved[k := if res - avg < 0.0 then 0.0 else res - avg]) else L;
      if !priced then M else
        var n := CallsAt(L.calls, k) + 1;
        M.(calls := M.calls[k := n], avgCost := M.avgCost[k := avg + (cost - avg) / n as real])
  }

  function Reconcile(limits: map<string, Limit>, L: Ledger, scopes: seq<string>, cost: real, priced: bool): Ledger {
    if scopes == [] then L
    else ReconcileScope(limits, Reconcile(limits, L, Front(scopes), cost, priced), Last(scopes), cost, priced)
  }

  function SpendOn(L: Ledger, k: string, cost: real): Ledger {
    L.(spent := L.spent[k := At(L.spent, k) + cost])
  }

  /** A warning is due for k right after a spend. */
  predicate WarnDue(limits: map<string, Limit>, L: Ledger, k: string) {
    k in limits && k !in L.warned &&
    At(L.spent, k) >= limits[k].limitUSD * (if limits[k].warnAt <= 0.0 then 0.8 else limits[k].warnAt)
  }

  function MarkWarned(L: Ledger, k: string): Ledger {
    L.(warned := L.warned + {k})
  }

  function SpendAndWarn(limits: map<string, Limit>, L: Ledger, k: string, cost: real): Ledger {
    var M := SpendOn(L, k, cost);
    if WarnDue(limits, M, k) then MarkWarned(M, k) else M
  }

  function SpendAll(limits: map<string, Limit>, L: Ledger, scopes: seq<string>, cost: real): Ledger {
    if scopes == [] then L else SpendAndWarn(limits, SpendAll(limits, L, Front(scopes), cost), Last(scopes), cost)
  }

  /** The event that a warning is published as. The plugin receives it like any other. */
  function Warning(tenant: string): Event {
    Event(false, Identity(tenant, "", ""), 0.0, true)
  }

  /** The warnings that spending on these scopes publishes. */
  function Published(limits: map<string, Limit>, L: Ledger, scopes: seq<string>, cost: real, tenant: string): seq<Event> {
    if scopes == [] then [] else
      var k := Last(scopes);
      Published(limits, L, Front(scopes), cost, tenant)
      + if WarnDue(limits, SpendOn(SpendAll(limits, L, Front(scopes), cost), k, cost), k) then [Warning(tenant)] else []
  }

  function Forget(L: Ledger, k: string): Ledger {
    Ledger(L.spent - {k}, L.reserved - {k}, L.avgCost - {k}, L.calls - {k}, L.warned - {k})
  }

  /** A whole OnEvent with no other section in between. */
  function HandleEvent(limits: map<string, Limit>, L: Ledger, ev: Event): Ledger {
    if ev.shadow then L else
      var M := Reconcile(limits, L, ScopeKeys(ev.id), ev.cost, Priced(ev));
      if Priced(ev) then SpendAll(limits, M, ScopeKeys(ev.id), ev.cost) else M
  }

  class Plugin {
    const limits: map<string, Limit>
    var spent: map<string, real>
    var reserved: map<string, real>
    var avgCost: map<string, real>
    var calls: map<string, nat>
    var warned: set<string>

    function View(): Ledger
      reads this
    {
      Ledger(spent, reserved, avgCost, calls, warned)
    }

    constructor (limits: map<string, Limit>)
      ensures View() == EMPTY && this.limits == limits
    {
      this.limits := limits;
      spent, reserved, avgCost, calls, warned := map[], map[], map[], map[], {};
    }

    method FirstExceeded(scopes: seq<string>) returns (r: Option<string>)
      ensures r.None? <==> Admits(limits, View(), scopes)
      ensures r.Some? ==> exists i :: 0 <= i < |scopes| && scopes[i] == r.value
                                      && Exceeded(limits, View(), r.value) && Admits(limits, View(), scopes[..i])
    {
      for i := 0 to |scopes|
        invariant Admits(limits, View(), scopes[..i])
      {
        if Exceeded(limits, View(), scopes[i]) {
          return Some(scopes[i]);
        }
        assert forall x :: x in scopes[..i + 1] <==> x in scopes[..i] || x == scopes[i];
      }
      assert scopes[..|scopes|] == scopes;
      return None;
    }

    /** Blocks, changing nothing, on the first exceeded scope; otherwise reserves on every limited one. */
    method Intercept(id: Identity) returns (blocked: Option<string>)
      modifies this
      ensures blocked.None? <==> Admits(limits, old(View()), ScopeKeys(id))
      ensures blocked.None? ==> View() == Reserve(limits, old(View()), ScopeKeys(id))
      ensures blocked.Some? ==>
                && View() == old(View())
                && exists i :: 0 <= i < |ScopeKeys(id)| && ScopeKeys(id)[i] == blocked.value
                               && Exceeded(limits, View(), blocked.value)
                               && Admits(limits, View(), ScopeKeys(id)[..i])
    {
      var scopes := ScopeKeys(id);
      blocked := FirstExceeded(scopes);
      if blocked.Some? {
        return;
      }
      for i := 0 to |scopes|
        invariant View() == Reserve(limits, old(View()), scopes[..i])
      {
        assert Front(scopes[..i + 1]) == scopes[..i];
        if scopes[i] in limits {
          reserved := reserved[scopes[i] := At(reserved, scopes[i]) + At(avgCost, scopes[i])];
        }
      }
      assert scopes[..|scopes|] == scopes;
    }

    method ReconcileLimited(k: string, cost: real, priced: bool)
      requires k in limits
      modifies this
      ensures View() == ReconcileScope(limits, old(View()), k, cost, priced)
    {
      if At(reserved, k) > 0.0 {
        reserved := reserved[k := At(reserved, k) - At(avgCost, k)];
        if reserved[k] < 0.0 {
          reserved := reserved[k := 0.0];
        }
      }
      if priced {
        calls := calls[k := CallsAt(calls, k) + 1];
        avgCost := avgCost[k := At(avgCost, k) + (cost - At(avgCost, k)) / calls[k] as real];
      }
    }

    /** The first locked section of OnEvent. */
    method ReconcileSection(scopes: seq<string>, cost: real, priced: bool)
      modifies this
      ensures View() == Reconcile(limits, old(View()), scopes, cost, priced)
    {
      for i := 0 to |scopes|
        invariant View() == Reconcile(limits, old(View()), scopes[..i], cost, priced)
      {
        var k := scopes[i];
        assert Front(scopes[..i + 1]) == scopes[..i] && Last(scopes[..i + 1]) == k;
        if k !in limits {
          continue;
        }
        ReconcileLimited(k, cost, priced);
      }
      assert scopes[..|scopes|] == scopes;
    }

    method SpendLocked(k: string, cost: real) returns (newSpent: real, alreadyWarned: bool)
      modifies this
      ensures View() == SpendOn(old(View()), k, cost)
      ensures newSpent == At(spent, k) && alreadyWarned == (k in warned)
    {
      spent := spent[k := At(spent, k) + cost];
      newSpent, alreadyWarned := spent[k], k in warned;
    }

    method MarkLocked(k: string)
      modifies this
      ensures View() == MarkWarned(old(View()), k)
    {
      warned := warned + {k};
    }

    /** The sections that follow for one scope, with no other in between: spend, and mark the scope once its
        threshold is reached. */
    method SpendSection(k: string, cost: real) returns (warn: bool)
      modifies this
      ensures View() == SpendAndWarn(limits, old(View()), k, cost)
      ensures warn <==> WarnDue(limits, SpendOn(old(View()), k, cost), k)
    {
      var newSpent, alreadyWarned := SpendLocked(k, cost);
      if k !in limits {
        return false;
      }
      var warnAt := if limits[k].warnAt <= 0.0 then 0.8 else limits[k].warnAt;
      warn := !alreadyWarned && newSpent >= limits[k].limitUSD * warnAt;
      if warn {
        MarkLocked(k);
      }
    }

    /** An event with no other section in between, and the warnings it publishes. */
    method OnEvent(ev: Event) returns (published: seq<Event>)
      modifies this
      ensures View() == HandleEvent(limits, old(View()), ev)
      ensures published ==
              if ev.shadow || !Priced(ev) then []
              else
                var scopes := ScopeKeys(ev.id);
                Published(limits, Reconcile(limits, old(View()), scopes, ev.cost, true), scopes, ev.cost, ev.id.tenant)
    {
      published := [];
      if ev.shadow {
        return;
      }
      var scopes := ScopeKeys(ev.id);
      ReconcileSection(scopes, ev.cost, Priced(ev));
      if !Priced(ev) {
        return;
      }
      ghost var L := View();
      for i := 0 to |scopes|
        invariant View() == SpendAll(limits, L, scopes[..i], ev.cost)
        invariant published == Published(limits, L, scopes[..i], ev.cost, ev.id.tenant)
      {
        assert Front(scopes[..i + 1]) == scopes[..i];
        var warn := SpendSection(scopes[i], ev.cost);
        if warn {
          published := published + [Warning(ev.id.tenant)];
        }
      }
      assert scopes[..|scopes|] == scopes;
    }

    method Reset(key: string)
      modifies this
      ensures View() == Forget(old(View()), key)
    {
      spent, reserved, avgCost, calls := spent - {key}, reserved - {key}, avgCost - {key}, calls - {key};
      warned := warned - {key};
    }
  }

  // ----- what a section does to one scope

  /** The bookkeeping of one limited scope, apart from its spend. */
  datatype Account = Account(reserved: real, avg: real, calls: nat)

  function AccountOf(L: Ledger, k: string): Account {
    Account(At(L.reserved, k), At(L.avgCost, k), CallsAt(L.calls, k))
  }

  function Released(a: Account): real {
    if a.reserved <= 0.0 then a.reserved else if a.reserved - a.avg < 0.0 then 0.0 else a.reserved - a.avg
  }

  function Reconciled(a: Account, cost: real, priced: bool): Account {
    if priced then Account(Released(a), a.avg + (cost - a.avg) / (a.calls + 1) as real, a.calls + 1)
    else a.(reserved := Released(a))
  }

  lemma {:induction false} ReserveAt(limits: map<string, Limit>, L: Ledger, scopes: seq<string>, k: string)
    requires Distinct(scopes)
    ensures var M, a := Reserve(limits, L, scopes), AccountOf(L, k);
            && M.spent == L.spent && M.avgCost == L.avgCost
            && AccountOf(M, k) == if k in limits && k in scopes then a.(reserved := a.reserved + a.avg) else a
  {
    if scopes != [] {
      ReserveAt(limits, L, Front(scopes), k);
      assert k in scopes <==> k in Front(scopes) || k == Last(scopes);
    }
  }

  lemma ReconcileScopeAt(limits: map<string, Limit>, L: Ledger, j: string, cost: real, priced: bool, k: string)
    ensures var M, a := ReconcileScope(limits, L, j, cost, priced), AccountOf(L, k);
            && M.spent == L.spent
            && AccountOf(M, k) == if j == k && k in limits then Reconciled(a, cost, priced) else a
  {
  }

  lemma {:induction false} ReconcileAt(
    limits: map<string, Limit>, L: Ledger, scopes: seq<string>, cost: real, priced: bool, k: string)
    requires Distinct(scopes)
    ensures var M, a := Reconcile(limits, L, scopes, cost, priced), AccountOf(L, k);
            && M.spent == L.spent
            && AccountOf(M, k) == if k in scopes && k in limits then Reconciled(a, cost, priced) else a
  {
    if scopes != [] {
      ReconcileAt(limits, L, Front(scopes), cost, priced, k);
      ReconcileScopeAt(limits, Reconcile(limits, L, Front(scopes), cost, priced), Last(scopes), cost, priced, k);
      assert k in scopes <==> k in Front(scopes) || k == Last(scopes);
    }
  }

  lemma {:induction false} ReconcileWarned(limits: map<string, Limit>, L: Ledger, scopes: seq<string>, cost: real, priced: bool)
    ensures Reconcile(limits, L, scopes, cost, priced).warned == L.warned
  {
    if scopes != [] {
      ReconcileWarned(limits, L, Front(scopes), cost, priced);
    }
  }
}
