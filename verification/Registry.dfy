/** The breaker registry: one breaker per model, created on first use and seeded from a store that
    replicas share. A changed state is saved asynchronously: `saves` are the writes on their way. */
module Registry {
  import opened Seqs
  import B = Breaker

  type Mode = B.Mode
  /** Model names are opaque here. */
  type Model(==)

  /** What Load returns: None is a missing entry, an error or a timeout. */
  function Loaded(store: map<Model, Mode>, m: Model): Option<Mode> {
    if m in store then Some(store[m]) else None
  }

  function Created(loaded: Option<Mode>, now: int): B.View {
    if loaded.Some? then B.Seed(B.New(now), loaded.value, now) else B.New(now)
  }

  /** Whatever it is seeded with, a new breaker has counted nothing. */
  lemma CreatedUnused(loaded: Option<Mode>, now: int)
    ensures var b := Created(loaded, now);
            && B.Unused(b) && b.mode == (if loaded.Some? then loaded.value else B.Closed)
            && b.windowStart == now && (b.mode == B.Open ==> b.openedAt == now)
  {
  }

  function Got(breakers: map<Model, B.View>, m: Model, loaded: Option<Mode>, now: int): map<Model, B.View> {
    if m in breakers then breakers else breakers[m := Created(loaded, now)]
  }

  predicate Sane(breakers: map<Model, B.View>) {
    forall m :: m in breakers ==> breakers[m].failures <= breakers[m].total
  }

  function Outcome(p: B.Policy, b: B.View, success: bool, now: int): B.View
    requires b.failures <= b.total
  {
    if success then B.Succeed(p, b, now) else B.Fail(p, b, now)
  }

  // ----- one replica, one call at a time

  class Registry {
    const policy: B.Policy
    var breakers: map<Model, B.Breaker>
    /** Writes handed to a goroutine, oldest first. */
    var saves: seq<(Model, Mode)>

    ghost function Objects(): set<object>
      reads this
    {
      set m | m in breakers :: breakers[m]
    }

    /** Every model has a breaker of its own. */
    ghost predicate Apart()
      reads this
    {
      forall m, n :: m in breakers && n in breakers && m != n ==> breakers[m] != breakers[n]
    }

    ghost predicate Sound(m: Model)
      requires m in breakers
      reads this, Objects()
    {
      breakers[m].policy == policy && breakers[m].failures <= breakers[m].total
    }

    ghost predicate Valid()
      reads this, Objects()
    {
      Apart() && forall m :: m in breakers ==> Sound(m)
    }

    ghost function Views(): map<Model, B.View>
      reads this, Objects()
    {
      map m | m in breakers :: breakers[m].Now()
    }

    constructor (p: B.Policy)
      ensures Valid() && policy == p && Views() == map[] && saves == []
    {
      policy, breakers, saves := p, map[], [];
    }

    method Create(m: Model, loaded: Option<Mode>, now: int)
      requires Valid() && m !in breakers
      modifies this`breakers
      ensures Valid() && m in breakers && fresh(breakers[m])
      ensures Views() == old(Views())[m := Created(loaded, now)]
    {
      var b := new B.Breaker(policy, now);
      if loaded.Some? {
        b.SetState(loaded.value, now);
      }
      breakers := breakers[m := b];
    }

    method Get(m: Model, loaded: Option<Mode>, now: int) returns (b: B.Breaker)
      requires Valid()
      modifies this`breakers
      ensures Valid() && m in breakers && b == breakers[m] && (b in old(Objects()) || fresh(b))
      ensures Views() == Got(old(Views()), m, loaded, now)
    {
      if m !in breakers {
        Create(m, loaded, now);
      }
      b := breakers[m];
    }

    /** A request to the breaker of m leaves every other breaker as it was. */
    method AskOne(m: Model, now: int) returns (ok: bool)
      requires Valid() && m in breakers
      modifies breakers[m]
      ensures Valid()
      ensures var (v, allowed) := B.Allow(policy, old(Views())[m], now); Views() == old(Views())[m := v] && ok == allowed
    {
      ok := breakers[m].TryAllow(now);
    }

    method RecordOne(m: Model, success: bool, now: int)
      requires Valid() && m in breakers && Sound(m)
      modifies breakers[m]
      ensures Valid() && old(Views())[m].failures <= old(Views())[m].total
      ensures Views() == old(Views())[m := Outcome(policy, old(Views())[m], success, now)]
    {
      if success {
        breakers[m].RecordSuccess(now);
      } else {
        breakers[m].RecordFailure(now);
      }
    }

    method IsAllowed(m: Model, loaded: Option<Mode>, now: int) returns (ok: bool)
      requires Valid()
      modifies this`breakers, Objects()
      ensures Valid()
      ensures var g := Got(old(Views()), m, loaded, now);
              Views() == g[m := B.Allow(policy, g[m], now).0] && ok == B.Allow(policy, g[m], now).1
    {
      var b := Get(m, loaded, now);
      ok := AskOne(m, now);
    }

    /** With no other call on the same model in between. */
    method RecordOutcome(m: Model, success: bool, loaded: Option<Mode>, now: int)
      requires Valid()
      modifies this, Objects()
      ensures Valid()
      ensures var g := Got(old(Views()), m, loaded, now);
              && g[m].failures <= g[m].total
              && Views() == g[m := Outcome(policy, g[m], success, now)]
              && saves == if Views()[m].mode == g[m].mode then old(saves) else old(saves) + [(m, Views()[m].mode)]
    {
      var b := Get(m, loaded, now);
      assert Sound(m);
      var before := b.mode;
      RecordOne(m, success, now);
      var after := b.mode;
      if after != before {
        saves := saves + [(m, after)];
      }
    }
  }
}
