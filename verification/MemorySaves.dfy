/** What becomes of one saved fact: how it is filled in, and how long All returns it. */
module MemorySaves {
  import opened Seqs
  import opened MemoryStore

  /** x is entry e as a Save at `now` keeps it: what is given stays, a missing creation time is the time of the
      Save, and a missing ID is made of user, category and creation time. */
  ghost predicate SavedAs(e: Entry, now: int, format: int -> string, x: Entry) {
    && x.userKey == e.userKey && x.category == e.category && x.content == e.content && x.source == e.source
    && (e.createdAt != 0 ==> x.createdAt == e.createdAt)
    && (e.createdAt == 0 ==> x.createdAt == now)
    && (e.id != "" ==> x.id == e.id)
    && (e.id == "" ==> x.id == e.userKey + ":" + e.category + ":" + format(x.createdAt))
  }

  /** Pruning in words: of the entries that have no time to live or are not past it, the last maxPerUser. */
  lemma PruneMeans(cfg: Limits, now: int, s: seq<Entry>)
    ensures var live := Filter((e: Entry) => cfg.ttl <= 0 || now - e.createdAt <= cfg.ttl, s);
            var r := Prune(cfg, now, s);
            && |r| == (if cfg.maxPerUser > 0 then Min(|live|, cfg.maxPerUser) else |live|)
            && r == live[|live| - |r|..]
  {
    FilterSame(LiveAt(cfg, now), (e: Entry) => cfg.ttl <= 0 || now - e.createdAt <= cfg.ttl, s);
  }

  lemma {:induction false} FilterSame(p: Entry -> bool, q: Entry -> bool, s: seq<Entry>)
    requires forall e :: p(e) <==> q(e)
    ensures Filter(p, s) == Filter(q, s)
  {
    if s != [] {
      FilterSame(p, q, Front(s));
    }
  }

  // ----- how long a fact stays

  /** x is in the list with at most n entries behind it. */
  ghost predicate Near(s: seq<Entry>, x: Entry, n: nat) {
    exists i :: 0 <= i < |s| && s[i] == x && |s| - 1 - i <= n
  }

  lemma {:induction false} FilterShorter(p: Entry -> bool, s: seq<Entry>)
    ensures |Filter(p, s)| <= |s|
  {
    if s != [] {
      FilterShorter(p, Front(s));
    }
  }

  lemma FilterNear(p: Entry -> bool, s: seq<Entry>, x: Entry, n: nat)
    requires Near(s, x, n) && p(x)
    ensures Near(Filter(p, s), x, n)
  {
    var i :| 0 <= i < |s| && s[i] == x && |s| - 1 - i <= n;
    SplitAt(s, i);
    FilterConcat(p, s[..i] + [x], s[i + 1..]);
    FilterSnoc(p, s[..i], x);
    FilterShorter(p, s[i + 1..]);
    assert Filter(p, s)[|Filter(p, s[..i])|] == x;
  }

  lemma PruneNear(cfg: Limits, at: int, s: seq<Entry>, x: Entry, n: nat)
    requires Near(s, x, n) && LiveAt(cfg, at)(x) && (cfg.maxPerUser > 0 ==> n < cfg.maxPerUser)
    ensures Near(Prune(cfg, at, s), x, n)
  {
    var f, r := Filter(LiveAt(cfg, at), s), Prune(cfg, at, s);
    FilterNear(LiveAt(cfg, at), s, x, n);
    var i :| 0 <= i < |f| && f[i] == x && |f| - 1 - i <= n;
    assert r[i - (|f| - |r|)] == x;
  }

  lemma SnocNear(s: seq<Entry>, x: Entry, n: nat, f: Entry)
    requires Near(s, x, n)
    ensures Near(s + [f], x, n + 1)
  {
    var i :| 0 <= i < |s| && s[i] == x && |s| - 1 - i <= n;
    assert (s + [f])[i] == x;
  }

  lemma RemoveNear(s: seq<Entry>, x: Entry, n: nat, j: nat)
    requires Near(s, x, n) && j < |s| && s[j] != x
    ensures Near(RemoveAt(s, j), x, n)
  {
    var i :| 0 <= i < |s| && s[i] == x && |s| - 1 - i <= n;
    assert RemoveAt(s, j)[if i < j then i else i - 1] == x;
  }

  /** The process does not restart, and no entry of u with this ID is deleted. */
  predicate Spares(run: seq<Action>, u: string, id: string) {
    forall i :: 0 <= i < |run| ==> !run[i].Restart? && !(run[i].Delete? && run[i].u == u && run[i].id == id)
  }

  /** How often u saves in a run. */
  function Saves(run: seq<Action>, u: string): nat {
    if run == [] then 0 else Saves(Front(run), u) + if Last(run).Save? && Last(run).e.userKey == u then 1 else 0
  }

  lemma LivesEarlier(cfg: Limits, t: int, T: int, x: Entry)
    requires t <= T && LiveAt(cfg, T)(x)
    ensures LiveAt(cfg, t)(x)
  {
  }

  lemma CompactedGet(cfg: Limits, at: int, m: Table, u: string)
    ensures Get(PrunedAll(cfg, at, m), u) == Prune(cfg, at, Get(m, u))
  {
    assert Prune(cfg, at, []) == [];
  }

  lemma StepNear(cfg: Limits, s: State, a: Action, x: Entry, n: nat, T: int)
    requires Near(Get(s.entries, x.userKey), x, n) && Spares([a], x.userKey, x.id)
    requires Step(cfg, s, a).now <= T && LiveAt(cfg, T)(x)
    requires cfg.maxPerUser > 0 ==> n + Saves([a], x.userKey) < cfg.maxPerUser
    ensures Near(Get(Step(cfg, s, a).entries, x.userKey), x, n + Saves([a], x.userKey))
  {
    var u := x.userKey;
    assert Front([a]) == [] && Last([a]) == a && [a][0] == a;
    match a
    case Save(f, at) =>
      LivesEarlier(cfg, at, T, x);
      if f.userKey == u {
        SnocNear(Get(s.entries, u), x, n, f);
        PruneNear(cfg, at, Get(s.entries, u) + [f], x, n + 1);
      }
    case Append(i) =>
    case Read(v, at) =>
      LivesEarlier(cfg, at, T, x);
      PruneNear(cfg, at, Get(s.entries, u), x, n);
    case Compact(at, _) =>
      LivesEarlier(cfg, at, T, x);
      CompactedGet(cfg, at, s.entries, u);
      PruneNear(cfg, at, Get(s.entries, u), x, n);
    case Delete(v, id, _) =>
      if v == u && MemoryStore.Holds(s.entries, v, id) {
        RemoveNear(Get(s.entries, u), x, n, IndexOf(Get(s.entries, u), id));
      }
  }

  lemma SavedNear(cfg: Limits, s: State, x: Entry, at: int)
    requires LiveAt(cfg, at)(x)
    ensures Near(Get(Step(cfg, s, Save(x, at)).entries, x.userKey), x, 0)
  {
    var kept := Get(s.entries, x.userKey) + [x];
    assert kept[|kept| - 1] == x;
    PruneNear(cfg, at, kept, x, 0);
  }

  /** A run after which x was saved, up to time T, that neither deletes x nor saves so often that it is evicted. */
  ghost predicate Lasting(cfg: Limits, start: int, run: seq<Action>, x: Entry, at: int, next: seq<Action>, T: int) {
    && Valid(cfg, start, run + [Save(x, at)] + next) && After(cfg, start, run + [Save(x, at)] + next).now <= T
    && Spares(next, x.userKey, x.id) && (cfg.maxPerUser > 0 ==> Saves(next, x.userKey) < cfg.maxPerUser)
  }

  lemma SparesFront(next: seq<Action>, u: string, id: string)
    requires next != [] && Spares(next, u, id)
    ensures Spares(Front(next), u, id) && Spares([Last(next)], u, id)
    ensures Saves(next, u) == Saves(Front(next), u) + Saves([Last(next)], u)
  {
    var a := Last(next);
    assert next[|next| - 1] == a && Front([a]) == [] && Last([a]) == a;
    assert forall i :: 0 <= i < |Front(next)| ==> Front(next)[i] == next[i];
  }

  lemma LastingFront(cfg: Limits, start: int, run: seq<Action>, x: Entry, at: int, next: seq<Action>, T: int)
    returns (s: State)
    requires Lasting(cfg, start, run, x, at, next, T) && next != []
    ensures Lasting(cfg, start, run, x, at, Front(next), T)
    ensures s == After(cfg, start, run + [Save(x, at)] + Front(next))
    ensures After(cfg, start, run + [Save(x, at)] + next) == Step(cfg, s, Last(next))
  {
    assert Front(run + [Save(x, at)] + next) == run + [Save(x, at)] + Front(next);
    SparesFront(next, x.userKey, x.id);
    s := After(cfg, start, run + [Save(x, at)] + Front(next));
  }

  lemma SavedFirst(cfg: Limits, start: int, run: seq<Action>, x: Entry, at: int)
    ensures After(cfg, start, run + [Save(x, at)]) == Step(cfg, After(cfg, start, run), Save(x, at))
  {
    assert Front(run + [Save(x, at)]) == run;
  }

  lemma {:induction false} StaysNear(cfg: Limits, start: int, run: seq<Action>, x: Entry, at: int, next: seq<Action>, T: int)
    requires Lasting(cfg, start, run, x, at, next, T) && LiveAt(cfg, T)(x)
    ensures Near(Get(After(cfg, start, run + [Save(x, at)] + next).entries, x.userKey), x, Saves(next, x.userKey))
  {
    if next == [] {
      assert run + [Save(x, at)] + next == run + [Save(x, at)];
      SavedFirst(cfg, start, run, x, at);
      LivesEarlier(cfg, at, T, x);
      SavedNear(cfg, After(cfg, start, run), x, at);
    } else {
      var s := LastingFront(cfg, start, run, x, at, next, T);
      StaysNear(cfg, start, run, x, at, Front(next), T);
      SparesFront(next, x.userKey, x.id);
      StepNear(cfg, s, Last(next), x, Saves(Front(next), x.userKey), T);
    }
  }

  /** In any run, a fact saved at `at` is returned by All at T, filled in as promised, exactly when it has no time
      to live or is at most that old at T, as long as it is not deleted, the process runs on and fewer than
      maxPerUser facts of the user are saved after it. */
  lemma SavedIsReturned(
    cfg: Limits, start: int, run: seq<Action>, e: Entry, at: int, format: int -> string, x: Entry, next: seq<Action>, T: int)
    requires SavedAs(e, at, format, x) && Lasting(cfg, start, run, Stamped(e, at, format), at, next, T)
    ensures var all := run + [Save(Stamped(e, at, format), at)] + next;
            x in Prune(cfg, T, Get(After(cfg, start, all).entries, e.userKey)) <==>
            cfg.ttl <= 0 || T - (if e.createdAt == 0 then at else e.createdAt) <= cfg.ttl
  {
    assert Stamped(e, at, format) == x;
    var kept := Get(After(cfg, start, run + [Save(x, at)] + next).entries, x.userKey);
    if LiveAt(cfg, T)(x) {
      StaysNear(cfg, start, run, x, at, next, T);
      PruneNear(cfg, T, kept, x, Saves(next, x.userKey));
    } else {
      PruneOnlyLive(cfg, T, kept, x);
    }
  }

  lemma PruneOnlyLive(cfg: Limits, T: int, s: seq<Entry>, x: Entry)
    ensures x in Prune(cfg, T, s) ==> LiveAt(cfg, T)(x)
  {
    FilterIn(LiveAt(cfg, T), s, x);
  }
}
