/** Runs of one replica's registry, critical section by critical section. A RecordOutcome is three actions:
    it reads the state, records, and reads the state again; between them other calls may come. */
module RegistryRuns {
  import opened Seqs
  import opened Registry
  import B = Breaker

  /** A RecordOutcome in progress: what it read first, whether it has recorded, and which action began it. */
  datatype Call = Call(m: Model, success: bool, before: Mode, recorded: bool, start: nat)

  datatype System = System(
    breakers: map<Model, B.View>, store: map<Model, Mode>, saves: seq<(Model, Mode)>, calls: seq<Call>, step: nat)

  datatype Action =
    | Ask(m: Model, at: int)
    | Begin(m: Model, success: bool, at: int)
    | Record(i: nat, at: int)
    | Finish(i: nat)
    | Flush

  predicate Ready(s: System, i: nat, recorded: bool) {
    i < |s.calls| && s.calls[i].m in s.breakers && s.calls[i].recorded == recorded
  }

  /** What action a hands to the store. */
  function SaveBy(s: System, a: Action): Option<(Model, Mode)> {
    if a.Finish? && Ready(s, a.i, true) && s.breakers[s.calls[a.i].m].mode != s.calls[a.i].before
    then Some((s.calls[a.i].m, s.breakers[s.calls[a.i].m].mode)) else None
  }

  function Act(p: B.Policy, s: System, a: Action): System
    requires Sane(s.breakers)
  {
    match a
    case Ask(m, at) =>
      var g := Got(s.breakers, m, Loaded(s.store, m), at);
      s.(breakers := g[m := B.Allow(p, g[m], at).0])
    case Begin(m, success, at) =>
      var g := Got(s.breakers, m, Loaded(s.store, m), at);
      s.(breakers := g, calls := s.calls + [Call(m, success, g[m].mode, false, s.step)])
    case Record(i, at) =>
      if !Ready(s, i, false) then s else
        var c := s.calls[i];
        s.(breakers := s.breakers[c.m := Outcome(p, s.breakers[c.m], c.success, at)], calls := s.calls[i := c.(recorded := true)])
    case Finish(i) =>
      if !Ready(s, i, true) then s else
        s.(calls := RemoveAt(s.calls, i), saves := if SaveBy(s, a).Some? then s.saves + [SaveBy(s, a).value] else s.saves)
    case Flush =>
      if s.saves == [] then s else s.(store := s.store[s.saves[0].0 := s.saves[0].1], saves := s.saves[1..])
  }

  function Step(p: B.Policy, s: System, a: Action): System
    requires Sane(s.breakers)
  {
    Act(p, s, a).(step := s.step + 1)
  }

  lemma StepSane(p: B.Policy, s: System, a: Action)
    requires Sane(s.breakers)
    ensures Sane(Step(p, s, a).breakers)
  {
  }

  /** A run starts on a store left by earlier processes. This is the system after its first n actions. */
  function At(p: B.Policy, store: map<Model, Mode>, run: seq<Action>, n: nat): (s: System)
    requires n <= |run|
    ensures Sane(s.breakers) && s.step == n
  {
    if n == 0 then System(map[], store, [], [], 0) else
      var s := At(p, store, run, n - 1);
      StepSane(p, s, run[n - 1]);
      Step(p, s, run[n - 1])
  }

  function End(p: B.Policy, store: map<Model, Mode>, run: seq<Action>): System {
    At(p, store, run, |run|)
  }

  // ----- what one action means to one model

  /** The action as the breaker of m sees it. */
  function EventOn(s: System, a: Action, m: Model): Option<B.Action> {
    match a
    case Ask(k, at) => if k == m then Some(B.Ask(at)) else None
    case Record(i, at) =>
      if Ready(s, i, false) && s.calls[i].m == m
      then Some(if s.calls[i].success then B.Success(at) else B.Failure(at)) else None
    case _ => None
  }

  /** Operations on one model never touch the breaker of another, and once it exists a breaker changes
      only by its own events. */
  lemma ModelsIndependent(p: B.Policy, s: System, a: Action, m: Model)
    requires Sane(s.breakers) && m in s.breakers
    ensures m in Step(p, s, a).breakers
    ensures Step(p, s, a).breakers[m] ==
            var e := EventOn(s, a, m); if e.Some? then B.Step(p, s.breakers[m], e.value) else s.breakers[m]
  {
  }

  /** The events of model m among actions number i to n - 1. */
  function EventsOf(p: B.Policy, store: map<Model, Mode>, run: seq<Action>, i: nat, n: nat, m: Model): seq<B.Action>
    requires i <= n <= |run|
    decreases n
  {
    if i == n then [] else
      var e := EventOn(At(p, store, run, n - 1), run[n - 1], m);
      EventsOf(p, store, run, i, n - 1, m) + if e.Some? then [e.value] else []
  }

  /** From its creation on, a model's breaker is its own run of the breaker machine, however calls
      interleave: all results about one breaker apply to every model of a registry. */
  lemma {:induction false} RegistryRunsBreakers(
    p: B.Policy, store: map<Model, Mode>, run: seq<Action>, i: nat, n: nat, m: Model)
    requires i <= n <= |run| && m in At(p, store, run, i).breakers
    ensures m in At(p, store, run, n).breakers
    ensures var b := At(p, store, run, i).breakers[m];
            b.failures <= b.total && At(p, store, run, n).breakers[m] == B.After(p, b, EventsOf(p, store, run, i, n, m))
  {
    if i < n {
      RegistryRunsBreakers(p, store, run, i, n - 1, m);
      var s := At(p, store, run, n - 1);
      ModelsIndependent(p, s, run[n - 1], m);
      var e, es := EventOn(s, run[n - 1], m), EventsOf(p, store, run, i, n - 1, m);
      if e.Some? {
        assert Front(es + [e.value]) == es;
      } else {
        assert es + [] == es;
      }
    }
  }

  /** A replica that first meets a model stored as Open refuses it for a full halfOpenAfter, whatever
      other replicas have learnt since. */
  lemma {:induction false} SeededOpenRefuses(p: B.Policy, now: int, run: seq<B.Action>)
    requires forall i :: 0 <= i < |run| ==> now <= run[i].at < now + p.halfOpenAfter
    ensures var b := Created(Some(B.Open), now);
            && b.failures <= b.total && B.After(p, b, run) == b
            && forall i :: 0 <= i < |run| ==> !B.Passes(p, b, run, i)
  {
    var b := Created(Some(B.Open), now);
    if run != [] {
      SeededOpenRefuses(p, now, Front(run));
      forall i | 0 <= i < |run| ensures !B.Passes(p, b, run, i) {
        if i < |Front(run)| {
          assert Front(run)[..i] == run[..i] && !B.Passes(p, b, Front(run), i);
        } else {
          assert run[..i] == Front(run);
        }
      }
    }
  }

  // ----- when the half-open state is written

  function ModeOf(s: System, m: Model): Option<Mode> {
    if m in s.breakers then Some(s.breakers[m].mode) else None
  }

  /** The mode of m after the first n actions. */
  function ModeAt(p: B.Policy, store: map<Model, Mode>, run: seq<Action>, n: nat, m: Model): Option<Mode>
    requires n <= |run|
  {
    ModeOf(At(p, store, run, n), m)
  }

  /** Call c was begun by action number c.start, and read the mode of that moment. */
  ghost predicate Begun(p: B.Policy, store: map<Model, Mode>, run: seq<Action>, n: nat, c: Call)
    requires n <= |run|
  {
    && c.start < n && run[c.start].Begin? && run[c.start].m == c.m && run[c.start].success == c.success
    && ModeAt(p, store, run, c.start + 1, c.m) == Some(c.before)
  }

  /** Where call number i came from: the call number it had before action a, unless a began it. */
  function Origin(s: System, a: Action, i: nat): nat {
    if a.Finish? && Ready(s, a.i, true) && i >= a.i then i + 1 else i
  }

  lemma CallOrigin(p: B.Policy, s: System, a: Action, i: nat)
    requires Sane(s.breakers) && i < |Step(p, s, a).calls|
    ensures var c, j := Step(p, s, a).calls[i], Origin(s, a, i);
            if j < |s.calls| then c == s.calls[j] || c == s.calls[j].(recorded := true)
            else a.Begin? && c == Call(a.m, a.success, c.before, false, s.step) && ModeOf(Step(p, s, a), a.m) == Some(c.before)
  {
  }

  lemma {:induction false} CallsBegun(p: B.Policy, store: map<Model, Mode>, run: seq<Action>, n: nat, i: nat)
    requires n <= |run| && i < |At(p, store, run, n).calls|
    ensures Begun(p, store, run, n, At(p, store, run, n).calls[i])
  {
    if n > 0 {
      var s, a := At(p, store, run, n - 1), run[n - 1];
      CallOrigin(p, s, a, i);
      if Origin(s, a, i) < |s.calls| {
        CallsBegun(p, store, run, n - 1, Origin(s, a, i));
      }
    }
  }

  /** What action number n hands to the store. */
  function SaveAt(p: B.Policy, store: map<Model, Mode>, run: seq<Action>, n: nat): Option<(Model, Mode)>
    requires n < |run|
  {
    SaveBy(At(p, store, run, n), run[n])
  }

  /** One of the first n actions hands x to the store. */
  predicate Handed(p: B.Policy, store: map<Model, Mode>, run: seq<Action>, n: nat, x: (Model, Mode))
    requires n <= |run|
  {
    n > 0 && (Handed(p, store, run, n - 1, x) || SaveAt(p, store, run, n - 1) == Some(x))
  }

  /** Action number f finishes a call on m, which finds the breaker half-open and did not when it began. */
  ghost predicate FindsHalfOpen(p: B.Policy, store: map<Model, Mode>, run: seq<Action>, f: nat, m: Model)
    requires f < |run|
  {
    var s := At(p, store, run, f);
    && run[f].Finish? && Ready(s, run[f].i, true)
    && var c := s.calls[run[f].i];
    && c.m == m && c.start < f
    && ModeAt(p, store, run, c.start + 1, m) != Some(B.HalfOpen)
    && ModeAt(p, store, run, f, m) == Some(B.HalfOpen)
  }

  lemma SavesHalfOpenIff(p: B.Policy, store: map<Model, Mode>, run: seq<Action>, f: nat, m: Model)
    requires f < |run|
    ensures SaveAt(p, store, run, f) == Some((m, B.HalfOpen)) <==> FindsHalfOpen(p, store, run, f, m)
  {
    if run[f].Finish? && Ready(At(p, store, run, f), run[f].i, true) {
      CallsBegun(p, store, run, f, run[f].i);
    }
  }

  ghost predicate Found(p: B.Policy, store: map<Model, Mode>, run: seq<Action>, n: nat, m: Model)
    requires n <= |run|
  {
    n > 0 && (Found(p, store, run, n - 1, m) || FindsHalfOpen(p, store, run, n - 1, m))
  }

  lemma {:induction false} FoundSomewhere(p: B.Policy, store: map<Model, Mode>, run: seq<Action>, n: nat, m: Model) returns (f: nat)
    requires n <= |run| && Found(p, store, run, n, m)
    ensures f < n && FindsHalfOpen(p, store, run, f, m)
  {
    if Found(p, store, run, n - 1, m) {
      f := FoundSomewhere(p, store, run, n - 1, m);
    } else {
      f := n - 1;
    }
  }

  lemma {:induction false} FoundAt(p: B.Policy, store: map<Model, Mode>, run: seq<Action>, n: nat, m: Model, f: nat)
    requires f < n <= |run| && FindsHalfOpen(p, store, run, f, m)
    ensures Found(p, store, run, n, m)
  {
    if f < n - 1 {
      FoundAt(p, store, run, n - 1, m, f);
    }
  }

  lemma {:induction false} HandedIffFound(p: B.Policy, store: map<Model, Mode>, run: seq<Action>, n: nat, m: Model)
    requires n <= |run|
    ensures Handed(p, store, run, n, (m, B.HalfOpen)) <==> Found(p, store, run, n, m)
  {
    if n > 0 {
      HandedIffFound(p, store, run, n - 1, m);
      SavesHalfOpenIff(p, store, run, n - 1, m);
    }
  }

  /** The half-open state of m is handed to the store in a run exactly when some call on m finds the
      breaker half-open at its end and not at its beginning. */
  lemma HalfOpenSavedIff(p: B.Policy, store: map<Model, Mode>, run: seq<Action>, m: Model)
    ensures Handed(p, store, run, |run|, (m, B.HalfOpen)) <==>
            exists f :: 0 <= f < |run| && FindsHalfOpen(p, store, run, f, m)
  {
    HandedIffFound(p, store, run, |run|, m);
    if Found(p, store, run, |run|, m) {
      var f := FoundSomewhere(p, store, run, |run|, m);
    }
    if f :| 0 <= f < |run| && FindsHalfOpen(p, store, run, f, m) {
      FoundAt(p, store, run, |run|, m, f);
    }
  }

  /** Action number j is a request that turns the breaker of m half-open. */
  ghost predicate HalfOpens(p: B.Policy, store: map<Model, Mode>, run: seq<Action>, j: nat, m: Model)
    requires j < |run|
  {
    && run[j].Ask? && run[j].m == m
    && ModeAt(p, store, run, j, m) == Some(B.Open) && ModeAt(p, store, run, j + 1, m) == Some(B.HalfOpen)
  }

  /** Recording never makes a breaker half-open. */
  lemma OnlyRequestsHalfOpen(p: B.Policy, s: System, a: Action, m: Model)
    requires Sane(s.breakers) && m in s.breakers
    ensures m in Step(p, s, a).breakers
    ensures s.breakers[m].mode != B.HalfOpen && Step(p, s, a).breakers[m].mode == B.HalfOpen ==>
              a.Ask? && a.m == m && s.breakers[m].mode == B.Open
  {
    ModelsIndependent(p, s, a, m);
  }

  /** Between a moment when the breaker is not half-open and a later one when it is, some request made
      it so. */
  lemma {:induction false} SomeRequestHalfOpens(
    p: B.Policy, store: map<Model, Mode>, run: seq<Action>, a: nat, b: nat, m: Model) returns (j: nat)
    requires a <= b <= |run| && m in At(p, store, run, a).breakers
    requires ModeAt(p, store, run, a, m) != Some(B.HalfOpen) && ModeAt(p, store, run, b, m) == Some(B.HalfOpen)
    ensures a <= j < b && HalfOpens(p, store, run, j, m)
  {
    KeepsBreaker(p, store, run, a, b - 1, m);
    OnlyRequestsHalfOpen(p, At(p, store, run, b - 1), run[b - 1], m);
    if ModeAt(p, store, run, b - 1, m) == Some(B.HalfOpen) {
      j := SomeRequestHalfOpens(p, store, run, a, b - 1, m);
    } else {
      j := b - 1;
    }
  }

  lemma {:induction false} KeepsBreaker(p: B.Policy, store: map<Model, Mode>, run: seq<Action>, a: nat, b: nat, m: Model)
    requires a <= b <= |run| && m in At(p, store, run, a).breakers
    ensures m in At(p, store, run, b).breakers
  {
    if a < b {
      KeepsBreaker(p, store, run, a, b - 1, m);
      ModelsIndependent(p, At(p, store, run, b - 1), run[b - 1], m);
    }
  }

  /** A call on m is in progress. */
  predicate Busy(s: System, m: Model) {
    exists i :: 0 <= i < |s.calls| && s.calls[i].m == m
  }

  /** A call in progress has been so ever since it began. */
  lemma {:induction false} CallWasInProgress(
    p: B.Policy, store: map<Model, Mode>, run: seq<Action>, f: nat, i: nat, n: nat)
    requires f <= |run| && i < |At(p, store, run, f).calls|
    requires At(p, store, run, f).calls[i].start < n <= f
    ensures Busy(At(p, store, run, n), At(p, store, run, f).calls[i].m)
  {
    if n < f {
      var s, a := At(p, store, run, f - 1), run[f - 1];
      CallOrigin(p, s, a, i);
      CallWasInProgress(p, store, run, f - 1, Origin(s, a, i), n);
    }
  }

  lemma HalfOpenedDuringCall(p: B.Policy, store: map<Model, Mode>, run: seq<Action>, f: nat, m: Model)
    requires f < |run| && FindsHalfOpen(p, store, run, f, m)
    ensures exists j :: 0 <= j < f && HalfOpens(p, store, run, j, m) && Busy(At(p, store, run, j), m)
  {
    var i := run[f].i;
    var c := At(p, store, run, f).calls[i];
    CallsBegun(p, store, run, f, i);
    var j := SomeRequestHalfOpens(p, store, run, c.start + 1, f, m);
    CallWasInProgress(p, store, run, f, i, j);
  }

  /** So it is not handed over as long as no request turns the breaker half-open while a call on the same
      model is in progress: in particular not if RecordOutcomes were atomic. */
  lemma HalfOpenNeverSaved(p: B.Policy, store: map<Model, Mode>, run: seq<Action>, m: Model)
    requires forall j :: 0 <= j < |run| && HalfOpens(p, store, run, j, m) ==> !Busy(At(p, store, run, j), m)
    ensures !Handed(p, store, run, |run|, (m, B.HalfOpen))
  {
    HalfOpenSavedIff(p, store, run, m);
    if f :| 0 <= f < |run| && FindsHalfOpen(p, store, run, f, m) {
      HalfOpenedDuringCall(p, store, run, f, m);
    }
  }

  // ----- when the store mirrors the breakers

  /** The store once all writes have arrived. */
  function Settled(store: map<Model, Mode>, saves: seq<(Model, Mode)>): map<Model, Mode>
    decreases |saves|
  {
    if saves == [] then store else Settled(store[saves[0].0 := saves[0].1], saves[1..])
  }

  lemma {:induction false} SettledSnoc(store: map<Model, Mode>, saves: seq<(Model, Mode)>, x: (Model, Mode))
    ensures Settled(store, saves + [x]) == Settled(store, saves)[x.0 := x.1]
    decreases |saves|
  {
    if saves == [] {
      assert Settled(store[x.0 := x.1], [x][1..]) == store[x.0 := x.1];
    } else {
      assert (saves + [x])[1..] == saves[1..] + [x];
      SettledSnoc(store[saves[0].0 := saves[0].1], saves[1..], x);
    }
  }

  /** The settled store says Open for m exactly when the breaker of m is not Closed. */
  predicate Mirrors(s: System, m: Model) {
    m in s.breakers ==> (Loaded(Settled(s.store, s.saves), m) == Some(B.Open) <==> s.breakers[m].mode != B.Closed)
  }

  function KnownNext(s: System, a: Action, known: Option<Mode>, m: Model): Option<Mode> {
    var save := SaveBy(s, a);
    if save.Some? && save.value.0 == m then Some(save.value.1) else known
  }

  /** What a run has made known about m after n actions: the mode that the last saving call found at its
      end, or what earlier processes had stored. */
  function Known(p: B.Policy, store: map<Model, Mode>, run: seq<Action>, n: nat, m: Model): Option<Mode>
    requires n <= |run|
  {
    if n == 0 then Loaded(store, m) else KnownNext(At(p, store, run, n - 1), run[n - 1], Known(p, store, run, n - 1, m), m)
  }

  lemma StepSettles(p: B.Policy, s: System, a: Action, m: Model)
    requires Sane(s.breakers)
    ensures var t := Step(p, s, a);
            Loaded(Settled(t.store, t.saves), m) == KnownNext(s, a, Loaded(Settled(s.store, s.saves), m), m)
  {
    if SaveBy(s, a).Some? {
      SettledSnoc(s.store, s.saves, SaveBy(s, a).value);
    }
  }

  lemma {:induction false} SettledIsKnown(p: B.Policy, store: map<Model, Mode>, run: seq<Action>, n: nat, m: Model)
    requires n <= |run|
    ensures var s := At(p, store, run, n); Loaded(Settled(s.store, s.saves), m) == Known(p, store, run, n, m)
  {
    if n > 0 {
      SettledIsKnown(p, store, run, n - 1, m);
      StepSettles(p, At(p, store, run, n - 1), run[n - 1], m);
    }
  }

  /** At most one call on m is in progress. */
  predicate Single(s: System, m: Model) {
    forall i, j :: 0 <= i < j < |s.calls| ==> !(s.calls[i].m == m && s.calls[j].m == m)
  }

  ghost predicate Serial(p: B.Policy, store: map<Model, Mode>, run: seq<Action>, n: nat, m: Model)
    requires n <= |run|
  {
    Single(At(p, store, run, n), m) && (n > 0 ==> Serial(p, store, run, n - 1, m))
  }

  predicate NotClosed(mode: Option<Mode>) {
    mode == Some(B.Open) || mode == Some(B.HalfOpen)
  }

  /** Model m has not been met: nothing is in progress or on its way, and nothing has been made known. */
  ghost predicate Unmet(p: B.Policy, store: map<Model, Mode>, run: seq<Action>, n: nat, m: Model)
    requires n <= |run|
  {
    var s := At(p, store, run, n);
    && !Busy(s, m) && Known(p, store, run, n, m) == Loaded(store, m) == Loaded(s.store, m)
    && forall i :: 0 <= i < |s.saves| ==> s.saves[i].0 != m
  }

  lemma StepKeeps(p: B.Policy, s: System, a: Action, m: Model)
    requires Sane(s.breakers)
    ensures m in s.breakers ==> m in Step(p, s, a).breakers
  {
  }

  lemma StepUnmet(p: B.Policy, s: System, a: Action, m: Model)
    requires Sane(s.breakers) && m !in Step(p, s, a).breakers && !Busy(s, m)
    requires forall i :: 0 <= i < |s.saves| ==> s.saves[i].0 != m
    ensures var t := Step(p, s, a);
            && m !in s.breakers && !Busy(t, m) && Loaded(t.store, m) == Loaded(s.store, m)
            && (SaveBy(s, a).Some? ==> SaveBy(s, a).value.0 != m)
            && forall i :: 0 <= i < |t.saves| ==> t.saves[i].0 != m
  {
    var t := Step(p, s, a);
    forall i | 0 <= i < |t.calls| ensures t.calls[i].m != m {
      CallOrigin(p, s, a, i);
    }
  }

  lemma {:induction false} UnmetBeforeCreation(p: B.Policy, store: map<Model, Mode>, run: seq<Action>, n: nat, m: Model)
    requires n <= |run| && m !in At(p, store, run, n).breakers
    ensures Unmet(p, store, run, n, m)
  {
    if n > 0 {
      StepKeeps(p, At(p, store, run, n - 1), run[n - 1], m);
      UnmetBeforeCreation(p, store, run, n - 1, m);
      StepUnmet(p, At(p, store, run, n - 1), run[n - 1], m);
    }
  }

  predicate ClosedIn(s: System, m: Model) {
    ModeOf(s, m) == Some(B.Closed)
  }

  function FlipsNext(p: B.Policy, s: System, a: Action, flips: nat, m: Model): nat
    requires Sane(s.breakers)
  {
    if SaveBy(s, a).Some? && SaveBy(s, a).value.0 == m then 0
    else if m in s.breakers && ClosedIn(s, m) != ClosedIn(Step(p, s, a), m) then flips + 1
    else flips
  }

  /** How often the breaker of m has tripped from Closed or closed since a call last saved it. */
  function Flips(p: B.Policy, store: map<Model, Mode>, run: seq<Action>, n: nat, m: Model): nat
    requires n <= |run|
  {
    if n == 0 then 0 else FlipsNext(p, At(p, store, run, n - 1), run[n - 1], Flips(p, store, run, n - 1, m), m)
  }

  predicate Even(n: nat) {
    n % 2 == 0
  }

  lemma EvenNext(n: nat)
    ensures Even(n + 1) <==> !Even(n)
  {
  }

  /** What is known of m and its mode agree on whether it is closed. */
  predicate Agree(s: System, known: Option<Mode>, m: Model) {
    NotClosed(known) <==> !ClosedIn(s, m)
  }

  lemma SavedAgrees(p: B.Policy, s: System, a: Action, known: Option<Mode>, m: Model)
    requires Sane(s.breakers) && SaveBy(s, a).Some? && SaveBy(s, a).value.0 == m
    ensures Agree(Step(p, s, a), KnownNext(s, a, known, m), m)
  {
  }

  lemma CreatedAgrees(p: B.Policy, s: System, a: Action, m: Model)
    requires Sane(s.breakers) && m !in s.breakers && m in Step(p, s, a).breakers
    ensures Agree(Step(p, s, a), Loaded(s.store, m), m) && !(SaveBy(s, a).Some? && SaveBy(s, a).value.0 == m)
  {
  }

  /** The parity of flips tells whether what is known of m is right about Closed. */
  ghost predicate Tracked(s: System, known: Option<Mode>, flips: nat, m: Model) {
    if m in s.breakers then Agree(s, known, m) <==> Even(flips) else known == Loaded(s.store, m) && flips == 0
  }

  lemma StepTracked(p: B.Policy, s: System, a: Action, known: Option<Mode>, flips: nat, m: Model)
    requires Sane(s.breakers) && Tracked(s, known, flips, m) && m in Step(p, s, a).breakers
    ensures Tracked(Step(p, s, a), KnownNext(s, a, known, m), FlipsNext(p, s, a, flips, m), m)
  {
    if m !in s.breakers {
      CreatedAgrees(p, s, a, m);
    } else if SaveBy(s, a).Some? && SaveBy(s, a).value.0 == m {
      SavedAgrees(p, s, a, known, m);
    } else {
      EvenNext(flips);
    }
  }

  lemma {:induction false} FlipsTrack(p: B.Policy, store: map<Model, Mode>, run: seq<Action>, n: nat, m: Model)
    requires n <= |run|
    ensures Tracked(At(p, store, run, n), Known(p, store, run, n, m), Flips(p, store, run, n, m), m)
  {
    if n > 0 {
      var s, a := At(p, store, run, n - 1), run[n - 1];
      FlipsTrack(p, store, run, n - 1, m);
      if m in Step(p, s, a).breakers {
        StepTracked(p, s, a, Known(p, store, run, n - 1, m), Flips(p, store, run, n - 1, m), m);
      } else {
        UnmetBeforeCreation(p, store, run, n, m);
        StepKeeps(p, s, a, m);
      }
    }
  }

  /** In every run, at every moment, however calls overlap: the settled store mirrors the breaker exactly when
      it has tripped and closed an even number of times since a call last saved it, or an odd number of
      times if what was saved is the half-open state. */
  lemma MirrorsIff(p: B.Policy, store: map<Model, Mode>, run: seq<Action>, n: nat, m: Model)
    requires n <= |run| && m in At(p, store, run, n).breakers
    ensures Mirrors(At(p, store, run, n), m) <==>
            (Even(Flips(p, store, run, n, m)) <==> Known(p, store, run, n, m) != Some(B.HalfOpen))
  {
    SettledIsKnown(p, store, run, n, m);
    FlipsTrack(p, store, run, n, m);
  }

  /** What is known of m is right about Closed: as of now if no call on m is in progress, and as of the
      beginning of the call if one is. */
  ghost predicate Consistent(s: System, known: Option<Mode>, m: Model) {
    m in s.breakers ==>
      && (forall i :: 0 <= i < |s.calls| && s.calls[i].m == m ==> (NotClosed(known) <==> s.calls[i].before != B.Closed))
      && (!Busy(s, m) ==> (NotClosed(known) <==> s.breakers[m].mode != B.Closed))
  }

  /** Before its first use, m is what the store says. */
  ghost predicate Fresh(s: System, known: Option<Mode>, m: Model) {
    m !in s.breakers ==> !Busy(s, m) && known == Loaded(s.store, m)
  }

  lemma AskConsistent(p: B.Policy, s: System, a: Action, known: Option<Mode>, m: Model)
    requires Sane(s.breakers) && a.Ask? && Consistent(s, known, m) && Fresh(s, known, m)
    ensures Consistent(Step(p, s, a), known, m)
  {
    assert Step(p, s, a).calls == s.calls;
  }

  lemma BeginConsistent(p: B.Policy, s: System, a: Action, known: Option<Mode>, m: Model)
    requires Sane(s.breakers) && a.Begin? && Consistent(s, known, m) && Fresh(s, known, m) && Single(Step(p, s, a), m)
    ensures Consistent(Step(p, s, a), known, m)
  {
    var t := Step(p, s, a);
    assert forall i :: 0 <= i < |s.calls| ==> t.calls[i] == s.calls[i];
    if a.m == m {
      assert t.calls[|s.calls|].m == m;
      assert !Busy(s, m);
    } else if !Busy(t, m) {
      assert !Busy(s, m);
    }
  }

  lemma RecordConsistent(p: B.Policy, s: System, a: Action, known: Option<Mode>, m: Model)
    requires Sane(s.breakers) && a.Record? && Consistent(s, known, m)
    ensures Consistent(Step(p, s, a), known, m)
  {
    var t := Step(p, s, a);
    assert |t.calls| == |s.calls|;
    assert forall i :: 0 <= i < |s.calls| ==> t.calls[i].m == s.calls[i].m && t.calls[i].before == s.calls[i].before;
    if Busy(s, m) {
      var i :| 0 <= i < |s.calls| && s.calls[i].m == m;
      assert t.calls[i].m == m;
    }
  }

  lemma FinishConsistent(p: B.Policy, s: System, a: Action, known: Option<Mode>, m: Model)
    requires Sane(s.breakers) && a.Finish? && Ready(s, a.i, true) && Consistent(s, known, m) && Single(s, m)
    ensures Consistent(Step(p, s, a), KnownNext(s, a, known, m), m)
  {
    var t, c := Step(p, s, a), s.calls[a.i];
    assert forall i :: 0 <= i < a.i ==> t.calls[i] == s.calls[i];
    assert forall i :: a.i <= i < |t.calls| ==> t.calls[i] == s.calls[i + 1];
    if c.m == m {
      assert !Busy(t, m);
    } else if Busy(s, m) {
      var i :| 0 <= i < |s.calls| && s.calls[i].m == m;
      assert t.calls[if i < a.i then i else i - 1].m == m;
    }
  }

  lemma StepConsistent(p: B.Policy, s: System, a: Action, known: Option<Mode>, m: Model)
    requires Sane(s.breakers) && Consistent(s, known, m) && Fresh(s, known, m) && Single(s, m) && Single(Step(p, s, a), m)
    ensures Consistent(Step(p, s, a), KnownNext(s, a, known, m), m)
  {
    match a
    case Ask(_, _) => AskConsistent(p, s, a, known, m);
    case Begin(_, _, _) => BeginConsistent(p, s, a, known, m);
    case Record(_, _) => RecordConsistent(p, s, a, known, m);
    case Finish(i) =>
      if Ready(s, i, true) {
        FinishConsistent(p, s, a, known, m);
      }
    case Flush =>
  }

  lemma FreshAt(p: B.Policy, store: map<Model, Mode>, run: seq<Action>, n: nat, m: Model)
    requires n <= |run|
    ensures Fresh(At(p, store, run, n), Known(p, store, run, n, m), m)
  {
    if m !in At(p, store, run, n).breakers {
      UnmetBeforeCreation(p, store, run, n, m);
    }
  }

  lemma {:induction false} SerialConsistent(p: B.Policy, store: map<Model, Mode>, run: seq<Action>, n: nat, m: Model)
    requires n <= |run| && Serial(p, store, run, n, m)
    ensures Consistent(At(p, store, run, n), Known(p, store, run, n, m), m)
  {
    if n > 0 {
      SerialConsistent(p, store, run, n - 1, m);
      FreshAt(p, store, run, n - 1, m);
      StepConsistent(p, At(p, store, run, n - 1), run[n - 1], Known(p, store, run, n - 1, m), m);
    }
  }

  /** When RecordOutcomes on m do not overlap, the settled store mirrors its breaker whenever none is in
      progress, exactly unless what was made known last is the half-open state. */
  lemma SerialMirrorsIff(p: B.Policy, store: map<Model, Mode>, run: seq<Action>, m: Model)
    requires Serial(p, store, run, |run|, m) && m in End(p, store, run).breakers && !Busy(End(p, store, run), m)
    ensures Mirrors(End(p, store, run), m) <==> Known(p, store, run, |run|, m) != Some(B.HalfOpen)
  {
    SerialConsistent(p, store, run, |run|, m);
    SettledIsKnown(p, store, run, |run|, m);
  }

  lemma {:induction false} KnownWasHanded(p: B.Policy, store: map<Model, Mode>, run: seq<Action>, n: nat, m: Model)
    requires n <= |run| && Known(p, store, run, n, m).Some?
    ensures Known(p, store, run, n, m) == Loaded(store, m) || Handed(p, store, run, n, (m, Known(p, store, run, n, m).value))
  {
    if n > 0 {
      var save := SaveAt(p, store, run, n - 1);
      if save.None? || save.value.0 != m {
        KnownWasHanded(p, store, run, n - 1, m);
      }
    }
  }

  /** So it does when, besides, no request turns the breaker half-open during a call, and the store did not
      start with a half-open state. */
  lemma StoreMirrorsBreakers(p: B.Policy, store: map<Model, Mode>, run: seq<Action>, m: Model)
    requires Serial(p, store, run, |run|, m) && m in End(p, store, run).breakers && !Busy(End(p, store, run), m)
    requires forall j :: 0 <= j < |run| && HalfOpens(p, store, run, j, m) ==> !Busy(At(p, store, run, j), m)
    requires Loaded(store, m) != Some(B.HalfOpen)
    ensures Mirrors(End(p, store, run), m)
  {
    HalfOpenNeverSaved(p, store, run, m);
    SerialMirrorsIff(p, store, run, m);
    if Known(p, store, run, |run|, m) == Some(B.HalfOpen) {
      KnownWasHanded(p, store, run, |run|, m);
    }
  }

  // ----- both conditions are needed

  lemma {:induction false} AtPrefix(p: B.Policy, store: map<Model, Mode>, run: seq<Action>, a: Action, n: nat)
    requires n <= |run|
    ensures At(p, store, run + [a], n) == At(p, store, run, n)
  {
    if n > 0 {
      AtPrefix(p, store, run, a, n - 1);
      assert (run + [a])[n - 1] == run[n - 1];
    }
  }

  lemma Extend(p: B.Policy, store: map<Model, Mode>, run: seq<Action>, a: Action) returns (next: seq<Action>)
    ensures run <= next && |next| == |run| + 1
    ensures End(p, store, next) == Step(p, End(p, store, run), a)
    ensures SaveAt(p, store, next, |run|) == SaveBy(End(p, store, run), a)
  {
    next := run + [a];
    AtPrefix(p, store, run, a, |run|);
  }

  /** After any run that leaves the breaker of m open, a request during a RecordOutcome can make it save the
      half-open state, and then the store does not mirror the breaker. */
  lemma HalfOpenSavedHappens(p: B.Policy, store: map<Model, Mode>, run: seq<Action>, m: Model, t: int)
    returns (next: seq<Action>)
    requires ModeOf(End(p, store, run), m) == Some(B.Open)
    requires t - End(p, store, run).breakers[m].openedAt >= p.halfOpenAfter
    ensures run <= next && End(p, store, next).calls == End(p, store, run).calls
    ensures Handed(p, store, next, |next|, (m, B.HalfOpen)) && !Mirrors(End(p, store, next), m)
  {
    var n := |End(p, store, run).calls|;
    var before := HalfOpensDuringCall(p, store, run, m, t);
    var u := End(p, store, before);
    next := Extend(p, store, before, Finish(n));
    assert SaveAt(p, store, next, |before|) == Some((m, B.HalfOpen));
    SettledSnoc(u.store, u.saves, (m, B.HalfOpen));
  }

  lemma HalfOpensDuringCall(p: B.Policy, store: map<Model, Mode>, run: seq<Action>, m: Model, t: int)
    returns (next: seq<Action>)
    requires ModeOf(End(p, store, run), m) == Some(B.Open)
    requires t - End(p, store, run).breakers[m].openedAt >= p.halfOpenAfter
    ensures run <= next
    ensures var s, u := End(p, store, run), End(p, store, next);
            var n := |s.calls|;
            && Ready(u, n, true) && u.calls[n].m == m && u.calls[n].before == B.Open
            && ModeOf(u, m) == Some(B.HalfOpen) && RemoveAt(u.calls, n) == s.calls
  {
    var s := End(p, store, run);
    var n := |s.calls|;
    var one := Extend(p, store, run, Begin(m, true, t));
    var two := Extend(p, store, one, Record(n, t));
    next := Extend(p, store, two, Ask(m, t));
    assert RemoveAt(End(p, store, next).calls, n) == s.calls;
  }

  /** After any run that leaves the breaker of m closed and one failure from tripping: two overlapping
      RecordOutcomes can leave the store saying Open for good while the breaker is closed. The success
      reads Closed, the failure trips and is saved, a request half-opens, other probes succeed and see no
      change, and then the success closes the breaker again and sees no change either. */
  lemma StoreStaysOpen(p: B.Policy, store: map<Model, Mode>, run: seq<Action>, m: Model, t: int, u: int)
    returns (next: seq<Action>)
    requires ModeOf(End(p, store, run), m) == Some(B.Closed)
    requires End(p, store, run).breakers[m].failures <= End(p, store, run).breakers[m].total
    requires B.Fail(p, End(p, store, run).breakers[m], t).mode == B.Open
    requires u - t >= p.halfOpenAfter
    ensures run <= next && End(p, store, next).calls == End(p, store, run).calls
    ensures var e := End(p, store, next);
            ModeOf(e, m) == Some(B.Closed) && Loaded(Settled(e.store, e.saves), m) == Some(B.Open) && !Mirrors(e, m)
  {
    var n := |End(p, store, run).calls|;
    var tripped := TripDuringCall(p, store, run, m, t);
    var x := End(p, store, tripped);
    var saved := Extend(p, store, tripped, Finish(n + 1));
    SettledSnoc(x.store, x.saves, (m, B.Open));
    assert RemoveAt(x.calls, n + 1) == x.calls[..n + 1];
    next := TailEnd(p, store, saved, m, n, u);
    assert x.calls[..n + 1][..n] == x.calls[..n];
  }

  lemma TripDuringCall(p: B.Policy, store: map<Model, Mode>, run: seq<Action>, m: Model, t: int) returns (next: seq<Action>)
    requires ModeOf(End(p, store, run), m) == Some(B.Closed)
    requires End(p, store, run).breakers[m].failures <= End(p, store, run).breakers[m].total
    requires B.Fail(p, End(p, store, run).breakers[m], t).mode == B.Open
    ensures run <= next
    ensures var s, x := End(p, store, run), End(p, store, next);
            var n := |s.calls|;
            && |x.calls| == n + 2 && x.calls[..n] == s.calls
            && x.calls[n] == Call(m, true, B.Closed, false, s.step)
            && Ready(x, n + 1, true) && x.calls[n + 1].m == m && x.calls[n + 1].before == B.Closed
            && ModeOf(x, m) == Some(B.Open) && x.breakers[m].openedAt == t
  {
    var n := |End(p, store, run).calls|;
    var one := Extend(p, store, run, Begin(m, true, t));
    var two := Extend(p, store, one, Begin(m, false, t));
    next := Extend(p, store, two, Record(n + 1, t));
  }

  /** A success on a half-open breaker that still needs others begins and ends half-open. */
  lemma PassProbe(p: B.Policy, store: map<Model, Mode>, run: seq<Action>, m: Model, u: int) returns (next: seq<Action>)
    requires ModeOf(End(p, store, run), m) == Some(B.HalfOpen)
    requires End(p, store, run).breakers[m].probesPassed + 1 < p.probeCount
    ensures run <= next
    ensures var s, t := End(p, store, run), End(p, store, next);
            && t.calls == s.calls && t.store == s.store && t.saves == s.saves
            && ModeOf(t, m) == Some(B.HalfOpen) && t.breakers[m].probesPassed == s.breakers[m].probesPassed + 1
  {
    var s := End(p, store, run);
    var n := |s.calls|;
    var one := Extend(p, store, run, Begin(m, true, u));
    var two := Extend(p, store, one, Record(n, u));
    var x := End(p, store, two);
    assert Ready(x, n, true) && x.calls[n].before == B.HalfOpen && ModeOf(x, m) == Some(B.HalfOpen);
    next := Extend(p, store, two, Finish(n));
    assert RemoveAt(x.calls, n) == s.calls;
  }

  /** So all probes but one can pass without a trace. */
  lemma PassProbes(p: B.Policy, store: map<Model, Mode>, run: seq<Action>, m: Model, u: int) returns (next: seq<Action>)
    requires ModeOf(End(p, store, run), m) == Some(B.HalfOpen)
    ensures run <= next
    ensures var s, t := End(p, store, run), End(p, store, next);
            && t.calls == s.calls && t.store == s.store && t.saves == s.saves
            && ModeOf(t, m) == Some(B.HalfOpen) && t.breakers[m].probesPassed + 1 >= p.probeCount
    decreases p.probeCount - End(p, store, run).breakers[m].probesPassed
  {
    next := run;
    if End(p, store, run).breakers[m].probesPassed + 1 < p.probeCount {
      next := PassProbe(p, store, run, m, u);
      next := PassProbes(p, store, next, m, u);
    }
  }

  lemma TailEnd(p: B.Policy, store: map<Model, Mode>, run: seq<Action>, m: Model, n: nat, u: int) returns (next: seq<Action>)
    requires ModeOf(End(p, store, run), m) == Some(B.Open)
    requires u - End(p, store, run).breakers[m].openedAt >= p.halfOpenAfter
    requires |End(p, store, run).calls| == n + 1
    requires var c := End(p, store, run).calls[n]; c.m == m && c.success && c.before == B.Closed && !c.recorded
    ensures run <= next && End(p, store, next).calls == End(p, store, run).calls[..n]
    ensures ModeOf(End(p, store, next), m) == Some(B.Closed)
    ensures End(p, store, next).store == End(p, store, run).store && End(p, store, next).saves == End(p, store, run).saves
  {
    var asked := Extend(p, store, run, Ask(m, u));
    var probed := PassProbes(p, store, asked, m, u);
    next := LastSuccess(p, store, probed, m, n, u);
  }

  lemma LastSuccess(p: B.Policy, store: map<Model, Mode>, run: seq<Action>, m: Model, n: nat, u: int) returns (next: seq<Action>)
    requires ModeOf(End(p, store, run), m) == Some(B.HalfOpen)
    requires End(p, store, run).breakers[m].probesPassed + 1 >= p.probeCount
    requires |End(p, store, run).calls| == n + 1
    requires var c := End(p, store, run).calls[n]; c.m == m && c.success && c.before == B.Closed && !c.recorded
    ensures run <= next && End(p, store, next).calls == End(p, store, run).calls[..n]
    ensures ModeOf(End(p, store, next), m) == Some(B.Closed)
    ensures End(p, store, next).store == End(p, store, run).store && End(p, store, next).saves == End(p, store, run).saves
  {
    var s := End(p, store, run);
    var one := Extend(p, store, run, Record(n, u));
    var y := End(p, store, one);
    assert ModeOf(y, m) == Some(B.Closed) && Ready(y, n, true) && y.calls[n].before == B.Closed;
    next := Extend(p, store, one, Finish(n));
    assert RemoveAt(y.calls, n) == s.calls[..n];
  }
}
