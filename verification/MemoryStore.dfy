/** The memory store: per-user lists of facts, pruned in memory at every access, behind an append-only
    journal that is replayed once at start.

    `State` also holds the journal lines that a Save has yet to append: its memory step and its append
    are separate critical sections, so compaction and Delete may come between them. The journal is a
    sequence of entries; encoding, file errors and crashes in mid-write are not modelled. A rewrite
    walks a Go map, so its line order across users is arbitrary: actions carry the layout chosen. */
module MemoryStore {
  import opened Seqs

  datatype Entry = Entry(id: string, userKey: string, category: string, content: string, source: string, createdAt: int)
  datatype Limits = Limits(ttl: int, maxPerUser: int)
  type Table = map<string, seq<Entry>>

  function Get(m: Table, u: string): seq<Entry> {
    if u in m then m[u] else []
  }

  // ----- pruning

  function LiveAt(cfg: Limits, now: int): Entry -> bool {
    (e: Entry) => cfg.ttl > 0 ==> now - e.createdAt <= cfg.ttl
  }

  function Cap(cfg: Limits, s: seq<Entry>): seq<Entry> {
    if cfg.maxPerUser > 0 then TakeLast(s, cfg.maxPerUser) else s
  }

  /** What pruneLocked keeps: the unexpired entries, and of those the last maxPerUser. */
  function Prune(cfg: Limits, now: int, s: seq<Entry>): seq<Entry> {
    Cap(cfg, Filter(LiveAt(cfg, now), s))
  }

  method PruneLocked(cfg: Limits, now: int, s: seq<Entry>) returns (r: seq<Entry>)
    ensures r == Prune(cfg, now, s)
  {
    r := s;
    if cfg.ttl > 0 {
      var live: seq<Entry> := [];
      for i := 0 to |s|
        invariant live == Filter(LiveAt(cfg, now), s[..i])
      {
        assert Front(s[..i + 1]) == s[..i];
        if now - s[i].createdAt <= cfg.ttl {
          live := live + [s[i]];
        }
      }
      assert s[..|s|] == s;
      r := live;
    } else {
      FilterAll(LiveAt(cfg, now), s);
    }
    if cfg.maxPerUser > 0 && |r| > cfg.maxPerUser {
      r := r[|r| - cfg.maxPerUser..];
    }
  }

  predicate Sorted(s: seq<Entry>) {
    forall i, j :: 0 <= i < j < |s| ==> s[i].createdAt <= s[j].createdAt
  }

  lemma KeepsLast(p: Entry -> bool, f: seq<Entry>, l: Entry, n: nat)
    requires p(l) && Filter(p, TakeLast(f, n)) == TakeLast(Filter(p, f), n)
    ensures Filter(p, TakeLast(f + [l], n + 1)) == TakeLast(Filter(p, f + [l]), n + 1)
  {
    TakeLastSnoc(f, l, n);
    FilterSnoc(p, TakeLast(f, n), l);
    FilterSnoc(p, f, l);
    TakeLastSnoc(Filter(p, f), l, n);
  }

  /** On a list in order of creation, expiry and the cap commute. */
  lemma {:induction false} ExpiryCommutesWithCap(cfg: Limits, now: int, s: seq<Entry>, n: nat)
    requires Sorted(s)
    ensures Filter(LiveAt(cfg, now), TakeLast(s, n)) == TakeLast(Filter(LiveAt(cfg, now), s), n)
  {
    if s == [] || n == 0 {
      assert TakeLast(s, n) == [];
    } else if LiveAt(cfg, now)(Last(s)) {
      ExpiryCommutesWithCap(cfg, now, Front(s), n - 1);
      KeepsLast(LiveAt(cfg, now), Front(s), Last(s), n - 1);
      FrontLast(s);
    } else {
      AllExpired(cfg, now, s);
      SuffixExpired(cfg, now, s, n);
    }
  }

  lemma SuffixExpired(cfg: Limits, now: int, s: seq<Entry>, n: nat)
    requires Sorted(s) && s != [] && !LiveAt(cfg, now)(Last(s)) && n > 0
    ensures Filter(LiveAt(cfg, now), TakeLast(s, n)) == []
  {
    AllExpired(cfg, now, TakeLast(s, n));
  }

  lemma AllExpired(cfg: Limits, now: int, s: seq<Entry>)
    requires Sorted(s) && s != [] && !LiveAt(cfg, now)(Last(s))
    ensures Filter(LiveAt(cfg, now), s) == []
  {
    FilterNone(LiveAt(cfg, now), s);
  }

  lemma CapAbsorbs(cfg: Limits, a: seq<Entry>, b: seq<Entry>)
    ensures Cap(cfg, Cap(cfg, a) + b) == Cap(cfg, a + b)
  {
    if cfg.maxPerUser > 0 {
      TakeLastAbsorbs(a, b, cfg.maxPerUser);
    }
  }

  /** Pruning early and often keeps the same entries as pruning once at the end. */
  lemma PruneAbsorbs(cfg: Limits, t: int, T: int, xs: seq<Entry>, ys: seq<Entry>)
    requires t <= T && Sorted(xs)
    ensures Prune(cfg, T, Prune(cfg, t, xs) + ys) == Prune(cfg, T, xs + ys)
  {
    var p, q := LiveAt(cfg, t), LiveAt(cfg, T);
    var early := Filter(p, xs);
    FilterSorted(p, xs);
    if cfg.maxPerUser > 0 {
      ExpiryCommutesWithCap(cfg, T, early, cfg.maxPerUser);
    }
    FilterTwice(p, q, xs);
    FilterConcat(q, Prune(cfg, t, xs), ys);
    FilterConcat(q, xs, ys);
    CapAbsorbs(cfg, Filter(q, xs), Filter(q, ys));
  }

  lemma {:induction false} FilterSorted(p: Entry -> bool, s: seq<Entry>)
    requires Sorted(s)
    ensures Sorted(Filter(p, s))
  {
    if s != [] {
      FilterSorted(p, Front(s));
      forall x | x in Filter(p, Front(s)) ensures x.createdAt <= Last(s).createdAt {
        FilterIn(p, Front(s), x);
      }
    }
  }

  /** The order of creation is needed: a late entry with an early date pushes out one that outlives it. */
  lemma UnsortedPruningDiffers()
    ensures var cfg := Limits(10, 1);
            var a, b := Entry("a", "u", "", "", "", 5), Entry("b", "u", "", "", "", 0);
            Prune(cfg, 12, Prune(cfg, 6, [a, b]) + []) == [] && Prune(cfg, 12, [a, b] + []) == [a]
  {
    var cfg := Limits(10, 1);
    var a, b := Entry("a", "u", "", "", "", 5), Entry("b", "u", "", "", "", 0);
    assert [a, b] + [] == [a, b] == [a] + [b] && [b] + [] == [b] && [a] == [] + [a] && [b] == [] + [b];
    FilterSnoc(LiveAt(cfg, 6), [a], b);
    FilterSnoc(LiveAt(cfg, 6), [], a);
    FilterSnoc(LiveAt(cfg, 12), [], b);
    FilterSnoc(LiveAt(cfg, 12), [a], b);
    FilterSnoc(LiveAt(cfg, 12), [], a);
  }

  // ----- journal and table

  function OwnedBy(u: string): Entry -> bool {
    (e: Entry) => e.userKey == u
  }

  /** The lines of a journal that belong to user u, in order. */
  function Of(j: seq<Entry>, u: string): seq<Entry> {
    Filter(OwnedBy(u), j)
  }

  /** The journal holds exactly the table: every user's list, in order, and nothing else. */
  ghost predicate Layout(j: seq<Entry>, m: Table) {
    forall u :: Of(j, u) == Get(m, u)
  }

  /** Every entry is filed under its own user. */
  ghost predicate Filed(m: Table) {
    forall u :: u in m ==> Owned(m[u], u)
  }

  ghost predicate Owned(s: seq<Entry>, u: string) {
    forall i :: 0 <= i < |s| ==> s[i].userKey == u
  }

  lemma {:induction false} OfOwned(j: seq<Entry>, u: string)
    ensures Owned(Of(j, u), u)
  {
    if j != [] {
      OfOwned(Front(j), u);
    }
  }

  lemma OwnedOf(s: seq<Entry>, u: string, v: string)
    requires Owned(s, u)
    ensures Of(s, v) == if v == u then s else []
  {
    if v == u {
      FilterAll(OwnedBy(v), s);
    } else {
      FilterNone(OwnedBy(v), s);
    }
  }

  lemma {:induction false} FilterOwned(p: Entry -> bool, s: seq<Entry>, u: string)
    requires Owned(s, u)
    ensures Owned(Filter(p, s), u)
  {
    if s != [] {
      FilterOwned(p, Front(s), u);
    }
  }

  lemma PruneOwned(cfg: Limits, now: int, s: seq<Entry>, u: string)
    requires Owned(s, u)
    ensures Owned(Prune(cfg, now, s), u)
  {
    FilterOwned(LiveAt(cfg, now), s, u);
  }

  lemma PruneIn(cfg: Limits, now: int, s: seq<Entry>, e: Entry)
    ensures e in Prune(cfg, now, s) ==> e in s
  {
    FilterIn(LiveAt(cfg, now), s, e);
  }

  lemma PruneSorted(cfg: Limits, now: int, s: seq<Entry>)
    requires Sorted(s)
    ensures Sorted(Prune(cfg, now, s))
  {
    FilterSorted(LiveAt(cfg, now), s);
  }

  // ----- the store

  /** The entry as saved: with a creation time and an ID. `format` prints a time. */
  function Stamped(e: Entry, now: int, format: int -> string): Entry {
    var at := if e.createdAt == 0 then now else e.createdAt;
    e.(createdAt := at, id := if e.id == "" then e.userKey + ":" + e.category + ":" + format(at) else e.id)
  }

  function Saved(cfg: Limits, m: Table, e: Entry, now: int): Table {
    m[e.userKey := Prune(cfg, now, Get(m, e.userKey) + [e])]
  }

  function Pruned(cfg: Limits, m: Table, u: string, now: int): Table {
    m[u := Prune(cfg, now, Get(m, u))]
  }

  /** Index of the first entry with the given ID, or |s| when there is none. */
  function IndexOf(s: seq<Entry>, id: string): (i: nat)
    ensures i <= |s|
    ensures i < |s| ==> s[i].id == id
    ensures forall j :: 0 <= j < i ==> s[j].id != id
  {
    if s == [] then 0 else
      var i := IndexOf(Front(s), id);
      if i < |Front(s)| || Last(s).id == id then i else |s|
  }

  predicate Holds(m: Table, u: string, id: string) {
    IndexOf(Get(m, u), id) < |Get(m, u)|
  }

  function Deleted(m: Table, u: string, id: string): Table
    requires Holds(m, u, id)
  {
    m[u := RemoveAt(Get(m, u), IndexOf(Get(m, u), id))]
  }

  /** The unexpired lines of user u. */
  function LoadedOf(cfg: Limits, now: int, j: seq<Entry>, u: string): seq<Entry> {
    Filter(LiveAt(cfg, now), Of(j, u))
  }

  lemma LoadedSnoc(cfg: Limits, now: int, j: seq<Entry>, e: Entry, u: string)
    ensures LoadedOf(cfg, now, j + [e], u) ==
            if e.userKey == u && LiveAt(cfg, now)(e) then LoadedOf(cfg, now, j, u) + [e] else LoadedOf(cfg, now, j, u)
  {
    FilterSnoc(OwnedBy(u), j, e);
    FilterSnoc(LiveAt(cfg, now), Of(j, u), e);
  }

  ghost predicate IsLoaded(cfg: Limits, now: int, m: Table, j: seq<Entry>) {
    Filed(m) && forall u :: Get(m, u) == LoadedOf(cfg, now, j, u)
  }

  lemma FiledUpdate(m: Table, u: string, s: seq<Entry>)
    requires Filed(m) && Owned(s, u)
    ensures Filed(m[u := s]) && Filed(m - {u})
  {
  }

  lemma LoadLineAt(cfg: Limits, now: int, m: Table, j: seq<Entry>, e: Entry, u: string)
    requires Get(m, u) == LoadedOf(cfg, now, j, u)
    ensures Get(LoadLine(cfg, now, m, e), u) == LoadedOf(cfg, now, j + [e], u)
  {
    LoadedSnoc(cfg, now, j, e, u);
  }

  function LoadLine(cfg: Limits, now: int, m: Table, e: Entry): Table {
    if LiveAt(cfg, now)(e) then m[e.userKey := Get(m, e.userKey) + [e]] else m
  }

  lemma LoadLineExtends(cfg: Limits, now: int, m: Table, j: seq<Entry>, e: Entry)
    requires IsLoaded(cfg, now, m, j)
    ensures IsLoaded(cfg, now, LoadLine(cfg, now, m, e), j + [e])
  {
    FiledUpdate(m, e.userKey, Get(m, e.userKey) + [e]);
    forall u {
      LoadLineAt(cfg, now, m, j, e, u);
    }
  }

  lemma AppendAt(live: seq<Entry>, s: seq<Entry>, u: string, v: string)
    requires Owned(s, u)
    ensures Of(live + s, v) == if v == u then Of(live, v) + s else Of(live, v)
  {
    FilterConcat(OwnedBy(v), live, s);
    OwnedOf(s, u, v);
  }

  /** The users outside todo have been pruned. */
  ghost predicate PrunedBut(cfg: Limits, now: int, before: Table, m: Table, todo: set<string>) {
    Filed(m) && forall u :: Get(m, u) == if u in todo then Get(before, u) else Prune(cfg, now, Get(before, u))
  }

  lemma PruneUser(cfg: Limits, now: int, before: Table, m: Table, todo: set<string>, u: string, n: Table)
    requires PrunedBut(cfg, now, before, m, todo) && u in todo
    requires n == m[u := Prune(cfg, now, Get(m, u))] || (Prune(cfg, now, Get(m, u)) == [] && n == m - {u})
    ensures PrunedBut(cfg, now, before, n, todo - {u})
  {
    PruneOwned(cfg, now, Get(m, u), u);
    FiledUpdate(m, u, Prune(cfg, now, Get(m, u)));
  }

  /** Prune every user's list; compaction also forgets users whose list becomes empty. */
  method PruneUsers(cfg: Limits, now: int, m: Table, forget: bool) returns (r: Table)
    requires Filed(m)
    ensures Filed(r) && forall u :: Get(r, u) == Prune(cfg, now, Get(m, u))
  {
    r := m;
    var todo := m.Keys;
    assert Prune(cfg, now, []) == [];
    while todo != {}
      invariant PrunedBut(cfg, now, m, r, todo)
      decreases |todo|
    {
      var u :| u in todo;
      var pruned := PruneLocked(cfg, now, Get(r, u));
      var n := if pruned == [] && forget then r - {u} else r[u := pruned];
      PruneUser(cfg, now, m, r, todo, u, n);
      r, todo := n, todo - {u};
    }
  }

  /** live holds the lists of the users outside todo. */
  ghost predicate Gathered(m: Table, live: seq<Entry>, todo: set<string>) {
    forall u :: Of(live, u) == if u in todo then [] else Get(m, u)
  }

  lemma GatherUser(m: Table, live: seq<Entry>, todo: set<string>, u: string)
    requires Filed(m) && Gathered(m, live, todo) && u in todo && u in m
    ensures Gathered(m, live + m[u], todo - {u})
  {
    forall v {
      AppendAt(live, m[u], u, v);
    }
  }

  /** All entries, user by user, in some order of users. */
  method Collect(m: Table) returns (live: seq<Entry>)
    requires Filed(m)
    ensures Layout(live, m)
  {
    live := [];
    var todo := m.Keys;
    while todo != {}
      invariant todo <= m.Keys && Gathered(m, live, todo)
      decreases |todo|
    {
      var u :| u in todo;
      GatherUser(m, live, todo, u);
      live, todo := live + m[u], todo - {u};
    }
  }

  class Store {
    const cfg: Limits
    var entries: Table
    var journal: seq<Entry>

    /** A store opened on journal j: what is live is loaded, and the journal is rewritten exactly when
        something in it is not. */
    constructor (cfg: Limits, j: seq<Entry>, now: int)
      ensures Filed(entries) && Layout(journal, entries) && this.cfg == cfg
      ensures forall u :: Get(entries, u) == Prune(cfg, now, Of(j, u))
    {
      this.cfg := cfg;
      this.entries := map[];
      this.journal := j;
      new;
      LoadLines(j, now);
      entries := PruneUsers(cfg, now, entries, false);
      var live := Collect(entries);
      forall u ensures Get(entries, u) == Prune(cfg, now, Of(j, u)) {
        FilterTwice(LiveAt(cfg, now), LiveAt(cfg, now), Of(j, u));
      }
      if |live| < |j| {
        journal := live;
      } else {
        KeptWhole(cfg, now, j, live);
      }
    }

    method LoadLines(j: seq<Entry>, now: int)
      requires entries == map[]
      modifies this`entries
      ensures IsLoaded(cfg, now, entries, j)
    {
      for i := 0 to |j|
        invariant IsLoaded(cfg, now, entries, j[..i])
      {
        var e := j[i];
        LoadLineExtends(cfg, now, entries, j[..i], e);
        assert j[..i + 1] == j[..i] + [e];
        if cfg.ttl > 0 && now - e.createdAt > cfg.ttl {
          continue;
        }
        entries := entries[e.userKey := Get(entries, e.userKey) + [e]];
      }
      assert j[..|j|] == j;
    }

    /** The memory step of a Save. */
    method Remember(f: Entry, now: int)
      requires Filed(entries)
      modifies this`entries
      ensures Filed(entries) && entries == Saved(cfg, old(entries), f, now)
    {
      PruneOwned(cfg, now, Get(entries, f.userKey) + [f], f.userKey);
      var kept := PruneLocked(cfg, now, Get(entries, f.userKey) + [f]);
      entries := entries[f.userKey := kept];
    }

    /** Its journal step. */
    method AppendJournal(f: Entry)
      modifies this`journal
      ensures journal == old(journal) + [f]
    {
      journal := journal + [f];
    }

    /** With nothing in between. */
    method Save(e: Entry, now: int, format: int -> string)
      requires Filed(entries)
      modifies this
      ensures Filed(entries)
      ensures entries == Saved(cfg, old(entries), Stamped(e, now, format), now)
      ensures journal == old(journal) + [Stamped(e, now, format)]
    {
      var f := Stamped(e, now, format);
      Remember(f, now);
      AppendJournal(f);
    }

    method All(u: string, now: int) returns (r: seq<Entry>)
      requires Filed(entries)
      modifies this`entries
      ensures Filed(entries)
      ensures r == Prune(cfg, now, old(Get(entries, u))) && entries == Pruned(cfg, old(entries), u, now)
    {
      PruneOwned(cfg, now, Get(entries, u), u);
      r := PruneLocked(cfg, now, Get(entries, u));
      entries := entries[u := r];
    }

    /** Afterwards the journal holds exactly the in-memory entries. */
    method CompactNow(now: int)
      requires Filed(entries)
      modifies this
      ensures Filed(entries) && Layout(journal, entries)
      ensures forall u :: Get(entries, u) == Prune(cfg, now, old(Get(entries, u)))
    {
      entries := PruneUsers(cfg, now, entries, true);
      journal := Collect(entries);
    }

    /** Removes the first entry of u with that ID, or reports that there is none and changes nothing. */
    method Delete(u: string, id: string) returns (found: bool)
      requires Filed(entries)
      modifies this
      ensures Filed(entries)
      ensures found <==> exists e :: e in old(Get(entries, u)) && e.id == id
      ensures found ==> Holds(old(entries), u, id) && entries == Deleted(old(entries), u, id) && Layout(journal, entries)
      ensures !found ==> entries == old(entries) && journal == old(journal)
    {
      var es := Get(entries, u);
      var idx := -1;
      for i := 0 to |es|
        invariant idx == -1 && forall j :: 0 <= j < i ==> es[j].id != id
      {
        if es[i].id == id {
          idx := i;
          break;
        }
      }
      if idx == -1 {
        return false;
      }
      assert es[idx] in es;
      entries := entries[u := es[..idx] + es[idx + 1..]];
      journal := Collect(entries);
      return true;
    }
  }

  // ----- replay rewrites the journal exactly when it drops a line

  lemma MultisetSize(a: seq<Entry>, b: seq<Entry>)
    requires multiset(a) <= multiset(b)
    ensures |a| <= |b|
  {
    assert multiset(b) == multiset(a) + (multiset(b) - multiset(a));
    assert |multiset(a)| == |a| && |multiset(b)| == |b|;
  }

  lemma PruneCounts(cfg: Limits, now: int, s: seq<Entry>, e: Entry)
    ensures multiset(Prune(cfg, now, s))[e] <= multiset(s)[e]
  {
    var live := Filter(LiveAt(cfg, now), s);
    FilterCounts(LiveAt(cfg, now), s, e);
    var r := Prune(cfg, now, s);
    assert live == live[..|live| - |r|] + r;
  }

  lemma NeverMore(cfg: Limits, now: int, j: seq<Entry>, live: seq<Entry>, p: Entry -> bool)
    requires forall u :: Of(live, u) == Prune(cfg, now, Of(j, u))
    ensures |Filter(p, live)| <= |Filter(p, j)|
  {
    forall e ensures multiset(Filter(p, live))[e] <= multiset(Filter(p, j))[e] {
      FilterCounts(p, live, e);
      FilterCounts(p, j, e);
      FilterCounts(OwnedBy(e.userKey), live, e);
      FilterCounts(OwnedBy(e.userKey), j, e);
      PruneCounts(cfg, now, Of(j, e.userKey), e);
    }
    MultisetSize(Filter(p, live), Filter(p, j));
  }

  lemma KeptWhole(cfg: Limits, now: int, j: seq<Entry>, live: seq<Entry>)
    requires forall u :: Of(live, u) == Prune(cfg, now, Of(j, u))
    requires |live| >= |j|
    ensures forall u :: Of(j, u) == Prune(cfg, now, Of(j, u))
  {
    forall u ensures Of(j, u) == Prune(cfg, now, Of(j, u)) {
      var others := (e: Entry) => e.userKey != u;
      FilterSplits(OwnedBy(u), others, j);
      FilterSplits(OwnedBy(u), others, live);
      NeverMore(cfg, now, j, live, others);
      FilterFull(LiveAt(cfg, now), Of(j, u));
    }
  }

  // ----- interleaved runs

  /** `pending` are entries that a Save has put in memory but not yet appended to the journal. */
  datatype State = State(entries: Table, journal: seq<Entry>, pending: seq<Entry>, now: int)

  datatype Action =
    | Save(e: Entry, at: int)
    | Append(i: nat)
    | Read(u: string, at: int)
    | Compact(at: int, layout: seq<Entry>)
    | Delete(u: string, id: string, layout: seq<Entry>)
    | Restart(at: int, layout: seq<Entry>)

  /** The table that a new process builds from journal j. */
  function Replayed(cfg: Limits, now: int, j: seq<Entry>): Table {
    map u | u in (set i | 0 <= i < |j| :: j[i].userKey) :: Prune(cfg, now, Of(j, u))
  }

  function PrunedAll(cfg: Limits, now: int, m: Table): Table {
    map u | u in m && Prune(cfg, now, m[u]) != [] :: Prune(cfg, now, m[u])
  }

  function Step(cfg: Limits, s: State, a: Action): State {
    match a
    case Save(e, at) => State(Saved(cfg, s.entries, e, at), s.journal, s.pending + [e], at)
    case Append(i) =>
      if i < |s.pending| then s.(journal := s.journal + [s.pending[i]], pending := RemoveAt(s.pending, i)) else s
    case Read(u, at) => s.(entries := Pruned(cfg, s.entries, u, at), now := at)
    case Compact(at, layout) => State(PrunedAll(cfg, at, s.entries), layout, s.pending, at)
    case Delete(u, id, layout) =>
      if Holds(s.entries, u, id) then s.(entries := Deleted(s.entries, u, id), journal := layout) else s
    case Restart(at, layout) => State(Replayed(cfg, at, s.journal), layout, [], at)
  }

  /** The action rewrites the journal from memory. */
  predicate Rewrites(s: State, a: Action) {
    a.Compact? || a.Restart? || (a.Delete? && Holds(s.entries, a.u, a.id))
  }

  /** The clock does not go back, and a rewrite writes the table it leaves in memory. */
  ghost predicate Enabled(cfg: Limits, s: State, a: Action) {
    && s.now <= Step(cfg, s, a).now
    && (Rewrites(s, a) ==> Layout(a.layout, Step(cfg, s, a).entries))
  }

  function After(cfg: Limits, start: int, run: seq<Action>): State {
    if run == [] then State(map[], [], [], start) else Step(cfg, After(cfg, start, Front(run)), Last(run))
  }

  ghost predicate Valid(cfg: Limits, start: int, run: seq<Action>) {
    run != [] ==> Valid(cfg, start, Front(run)) && Enabled(cfg, After(cfg, start, Front(run)), Last(run))
  }

  lemma {:induction false} NoLines(j: seq<Entry>, u: string)
    requires forall i :: 0 <= i < |j| ==> j[i].userKey != u
    ensures Of(j, u) == []
  {
    FilterNone(OwnedBy(u), j);
  }

  lemma ReplayedGet(cfg: Limits, now: int, j: seq<Entry>, u: string)
    ensures Get(Replayed(cfg, now, j), u) == Prune(cfg, now, Of(j, u))
  {
    if u !in Replayed(cfg, now, j) {
      NoLines(j, u);
    }
  }

  // ----- nothing saved is lost

  ghost predicate Covered(s: State, e: Entry) {
    multiset(Get(s.entries, e.userKey))[e] <= multiset(s.journal)[e] + multiset(s.pending)[e]
  }

  lemma RewriteCovers(cfg: Limits, s: State, a: Action, e: Entry)
    requires Enabled(cfg, s, a) && Rewrites(s, a)
    ensures Covered(Step(cfg, s, a), e)
  {
    FilterCounts(OwnedBy(e.userKey), a.layout, e);
    assert Of(a.layout, e.userKey) == Get(Step(cfg, s, a).entries, e.userKey);
  }

  lemma SaveCovers(cfg: Limits, s: State, f: Entry, at: int, e: Entry)
    requires Covered(s, e)
    ensures Covered(Step(cfg, s, Save(f, at)), e)
  {
    if f.userKey == e.userKey {
      PruneCounts(cfg, at, Get(s.entries, e.userKey) + [f], e);
    }
  }

  lemma ReadCovers(cfg: Limits, s: State, u: string, at: int, e: Entry)
    requires Covered(s, e)
    ensures Covered(Step(cfg, s, Read(u, at)), e)
  {
    PruneCounts(cfg, at, Get(s.entries, e.userKey), e);
  }

  lemma AppendCovers(cfg: Limits, s: State, i: nat, e: Entry)
    requires Covered(s, e)
    ensures Covered(Step(cfg, s, Append(i)), e)
  {
    if i < |s.pending| {
      SplitAt(s.pending, i);
    }
  }

  lemma StepCovers(cfg: Limits, s: State, a: Action, e: Entry)
    requires Enabled(cfg, s, a) && Covered(s, e)
    ensures Covered(Step(cfg, s, a), e)
  {
    if Rewrites(s, a) {
      RewriteCovers(cfg, s, a, e);
    } else {
      match a
      case Save(f, at) => SaveCovers(cfg, s, f, at, e);
      case Append(i) => AppendCovers(cfg, s, i, e);
      case Read(v, at) => ReadCovers(cfg, s, v, at, e);
      case Delete(v, id, layout) =>
    }
  }

  /** Under every interleaving of saves, appends, compactions, deletes and restarts, each entry in
      memory has a journal line or an append on its way, as often as it is in memory. */
  lemma {:induction false} NothingLost(cfg: Limits, start: int, run: seq<Action>, e: Entry)
    requires Valid(cfg, start, run)
    ensures Covered(After(cfg, start, run), e)
  {
    if run != [] {
      NothingLost(cfg, start, Front(run), e);
      StepCovers(cfg, After(cfg, start, Front(run)), Last(run), e);
    }
  }

  // ----- the race between an append and a rewrite

  /** What the store holds for one user: the list in memory, the journal lines, the appends to come. */
  datatype View = View(kept: seq<Entry>, lines: seq<Entry>, waiting: seq<Entry>)

  function ViewOf(s: State, u: string): View {
    View(Get(s.entries, u), Of(s.journal, u), Of(s.pending, u))
  }

  lemma RewriteExact(cfg: Limits, s: State, a: Action, u: string)
    requires Enabled(cfg, s, a) && Rewrites(s, a)
    ensures var v := ViewOf(Step(cfg, s, a), u); v.lines == v.kept
  {
    assert Of(a.layout, u) == Get(Step(cfg, s, a).entries, u);
  }

  // ----- without that race: one user's view

  datatype Local =
    | Idle
    | Saves(e: Entry, at: int)
    | Appends
    | Reads(at: int)
    | Compacts(at: int)
    | Deletes(i: nat)
    | Restarts(at: int)

  function Rewritten(kept: seq<Entry>): View {
    View(kept, kept, [])
  }

  function LocalStep(cfg: Limits, v: View, l: Local): View {
    match l
    case Idle => v
    case Saves(e, at) => v.(kept := Prune(cfg, at, v.kept + [e]), waiting := v.waiting + [e])
    case Appends => if v.waiting == [] then v else v.(lines := v.lines + [v.waiting[0]], waiting := v.waiting[1..])
    case Reads(at) => v.(kept := Prune(cfg, at, v.kept))
    case Compacts(at) => Rewritten(Prune(cfg, at, v.kept))
    case Deletes(i) => Rewritten(if i < |v.kept| then RemoveAt(v.kept, i) else v.kept)
    case Restarts(at) => Rewritten(Prune(cfg, at, v.lines))
  }

  /** What action a in state s means to user u. */
  function Localize(s: State, a: Action, u: string): Local {
    match a
    case Save(e, at) => if e.userKey == u then Saves(e, at) else Idle
    case Append(i) => if i < |s.pending| && s.pending[i].userKey == u then Appends else Idle
    case Read(v, at) => if v == u then Reads(at) else Idle
    case Compact(at, _) => Compacts(at)
    case Delete(v, id, _) =>
      if !Holds(s.entries, v, id) then Idle
      else Deletes(if v == u then IndexOf(Get(s.entries, u), id) else |Get(s.entries, u)|)
    case Restart(at, _) => Restarts(at)
  }

  /** Appends of u are written in the order of its saves, and no rewrite comes between. */
  predicate Calm(s: State, a: Action, u: string) {
    && (Rewrites(s, a) ==> Of(s.pending, u) == [])
    && (a.Append? && a.i < |s.pending| && s.pending[a.i].userKey == u ==> Of(s.pending[..a.i], u) == [])
  }

  lemma AppendLocal(cfg: Limits, s: State, i: nat, u: string)
    requires i < |s.pending| && Calm(s, Append(i), u)
    ensures ViewOf(Step(cfg, s, Append(i)), u) == LocalStep(cfg, ViewOf(s, u), Localize(s, Append(i), u))
  {
    var x, before, behind := s.pending[i], s.pending[..i], s.pending[i + 1..];
    SplitAt(s.pending, i);
    FilterConcat(OwnedBy(u), before + [x], behind);
    FilterSnoc(OwnedBy(u), before, x);
    FilterConcat(OwnedBy(u), before, behind);
    FilterSnoc(OwnedBy(u), s.journal, x);
  }

  lemma RewriteLocal(cfg: Limits, s: State, a: Action, u: string)
    requires Enabled(cfg, s, a) && Rewrites(s, a) && Calm(s, a, u)
    ensures ViewOf(Step(cfg, s, a), u) == LocalStep(cfg, ViewOf(s, u), Localize(s, a, u))
  {
    RewriteExact(cfg, s, a, u);
    if a.Restart? {
      ReplayedGet(cfg, a.at, s.journal, u);
    }
    if a.Compact? {
      assert Prune(cfg, a.at, []) == [];
    }
  }

  /** Users are independent: each sees its own small machine, whatever the others do. */
  lemma StepLocal(cfg: Limits, s: State, a: Action, u: string)
    requires Enabled(cfg, s, a) && Calm(s, a, u)
    ensures ViewOf(Step(cfg, s, a), u) == LocalStep(cfg, ViewOf(s, u), Localize(s, a, u))
  {
    if Rewrites(s, a) {
      RewriteLocal(cfg, s, a, u);
    } else if a.Append? && a.i < |s.pending| {
      AppendLocal(cfg, s, a.i, u);
    } else if a.Save? {
      FilterSnoc(OwnedBy(u), s.pending, a.e);
    }
  }

  // ----- replay agrees with memory

  /** Everything user u saved, in order. */
  function SavedBy(run: seq<Action>, u: string): seq<Entry> {
    if run == [] then [] else
      var front := SavedBy(Front(run), u);
      if Last(run).Save? && Last(run).e.userKey == u then front + [Last(run).e] else front
  }

  /** Every action is calm for u. Sequential runs are: each Save is followed by its own append. */
  ghost predicate Undisturbed(cfg: Limits, start: int, run: seq<Action>, u: string) {
    run != [] ==> Undisturbed(cfg, start, Front(run), u) && Calm(After(cfg, start, Front(run)), Last(run), u)
  }

  /** A list in order of creation that holds only what the user saved. */
  ghost predicate Chronological(log: seq<Entry>, s: seq<Entry>) {
    Sorted(s) && forall i :: 0 <= i < |s| ==> s[i] in log
  }

  lemma PruneChronological(cfg: Limits, now: int, log: seq<Entry>, s: seq<Entry>)
    requires Chronological(log, s)
    ensures Chronological(log, Prune(cfg, now, s))
  {
    PruneSorted(cfg, now, s);
    forall i | 0 <= i < |Prune(cfg, now, s)| ensures Prune(cfg, now, s)[i] in log {
      PruneIn(cfg, now, s, Prune(cfg, now, s)[i]);
    }
  }

  lemma SnocChronological(log: seq<Entry>, s: seq<Entry>, e: Entry)
    requires Chronological(log, s) && Sorted(log + [e])
    ensures Chronological(log + [e], s + [e])
  {
    forall i | 0 <= i < |s| ensures s[i].createdAt <= e.createdAt {
      var k :| 0 <= k < |log| && log[k] == s[i];
      assert (log + [e])[k] == s[i] && (log + [e])[|log|] == e;
    }
  }

  /** Memory and journal of one user are in order of creation, and replaying the journal at T yields
      what is in memory at T. */
  ghost predicate Agrees(cfg: Limits, v: View, log: seq<Entry>, T: int) {
    && Chronological(log, v.kept)
    && Chronological(log, v.lines + v.waiting)
    && Prune(cfg, T, v.lines + v.waiting) == Prune(cfg, T, v.kept)
  }

  lemma PruneTwice(cfg: Limits, t: int, T: int, s: seq<Entry>)
    requires t <= T && Sorted(s)
    ensures Prune(cfg, T, Prune(cfg, t, s)) == Prune(cfg, T, s)
  {
    PruneAbsorbs(cfg, t, T, s, []);
    assert Prune(cfg, t, s) + [] == Prune(cfg, t, s) && s + [] == s;
  }

  lemma SaveAgrees(cfg: Limits, v: View, log: seq<Entry>, e: Entry, at: int, T: int)
    requires Agrees(cfg, v, log, T) && at <= T && Sorted(log + [e])
    ensures Agrees(cfg, LocalStep(cfg, v, Saves(e, at)), log + [e], T)
  {
    var w := v.lines + v.waiting;
    assert v.lines + (v.waiting + [e]) == w + [e];
    SnocChronological(log, v.kept, e);
    SnocChronological(log, w, e);
    PruneChronological(cfg, at, log + [e], v.kept + [e]);
    PruneTwice(cfg, at, T, v.kept + [e]);
    PruneAbsorbs(cfg, T, T, w, [e]);
    PruneAbsorbs(cfg, T, T, v.kept, [e]);
  }

  lemma RewriteAgrees(cfg: Limits, kept: seq<Entry>, log: seq<Entry>, T: int)
    requires Chronological(log, kept)
    ensures Agrees(cfg, Rewritten(kept), log, T)
  {
    assert kept + [] == kept;
  }

  lemma AppendAgrees(cfg: Limits, v: View, log: seq<Entry>, T: int)
    requires Agrees(cfg, v, log, T)
    ensures Agrees(cfg, LocalStep(cfg, v, Appends), log, T)
  {
    if v.waiting != [] {
      assert v.lines + [v.waiting[0]] + v.waiting[1..] == v.lines + v.waiting;
    }
  }

  lemma LinesChronological(v: View, log: seq<Entry>)
    requires Chronological(log, v.lines + v.waiting)
    ensures Chronological(log, v.lines)
  {
    var w := v.lines + v.waiting;
    assert forall i :: 0 <= i < |v.lines| ==> v.lines[i] == w[i];
  }

  lemma LocalAgrees(cfg: Limits, v: View, l: Local, log: seq<Entry>, T: int)
    requires Agrees(cfg, v, log, T) && !l.Saves?
    requires (l.Reads? ==> l.at <= T) && (l.Compacts? ==> l.at <= T) && (l.Restarts? ==> l.at <= T)
    ensures Agrees(cfg, LocalStep(cfg, v, l), log, T)
  {
    match l
    case Idle =>
    case Appends => AppendAgrees(cfg, v, log, T);
    case Reads(at) => PruneChronological(cfg, at, log, v.kept); PruneTwice(cfg, at, T, v.kept);
    case Compacts(at) => PruneChronological(cfg, at, log, v.kept); RewriteAgrees(cfg, Prune(cfg, at, v.kept), log, T);
    case Deletes(i) => RewriteAgrees(cfg, if i < |v.kept| then RemoveAt(v.kept, i) else v.kept, log, T);
    case Restarts(at) =>
      LinesChronological(v, log);
      PruneChronological(cfg, at, log, v.lines);
      RewriteAgrees(cfg, Prune(cfg, at, v.lines), log, T);
  }

  lemma SavedByFront(run: seq<Action>, u: string)
    requires run != [] && Sorted(SavedBy(run, u))
    ensures Sorted(SavedBy(Front(run), u))
  {
    var log := SavedBy(Front(run), u);
    assert log == SavedBy(run, u)[..|log|];
  }

  function Logged(log: seq<Entry>, a: Action, u: string): seq<Entry> {
    if a.Save? && a.e.userKey == u then log + [a.e] else log
  }

  lemma StepAgrees(cfg: Limits, s: State, a: Action, u: string, log: seq<Entry>, T: int)
    requires Enabled(cfg, s, a) && Calm(s, a, u) && Step(cfg, s, a).now <= T
    requires Agrees(cfg, ViewOf(s, u), log, T) && Sorted(Logged(log, a, u))
    ensures Agrees(cfg, ViewOf(Step(cfg, s, a), u), Logged(log, a, u), T)
  {
    StepLocal(cfg, s, a, u);
    if a.Save? && a.e.userKey == u {
      SaveAgrees(cfg, ViewOf(s, u), log, a.e, a.at, T);
    } else {
      LocalAgrees(cfg, ViewOf(s, u), Localize(s, a, u), log, T);
    }
  }

  /** At every moment of an undisturbed run with creation times in order, and for every later time T,
      a process restarted on the journal would return for u what All returns at T. */
  lemma {:induction false} ReplayAgrees(cfg: Limits, start: int, run: seq<Action>, u: string, T: int)
    requires Valid(cfg, start, run) && Undisturbed(cfg, start, run, u) && Sorted(SavedBy(run, u))
    requires After(cfg, start, run).now <= T
    ensures Agrees(cfg, ViewOf(After(cfg, start, run), u), SavedBy(run, u), T)
  {
    if run != [] {
      SavedByFront(run, u);
      ReplayAgrees(cfg, start, Front(run), u, T);
      StepAgrees(cfg, After(cfg, start, Front(run)), Last(run), u, SavedBy(Front(run), u), T);
    }
  }

  // ----- the bounded store refines the full log

  predicate DeletesFrom(run: seq<Action>, u: string) {
    exists i :: 0 <= i < |run| && run[i].Delete? && run[i].u == u
  }

  lemma StepRefines(cfg: Limits, s: State, a: Action, u: string, log: seq<Entry>, T: int)
    requires Enabled(cfg, s, a) && Calm(s, a, u) && Step(cfg, s, a).now <= T && !(a.Delete? && a.u == u)
    requires Agrees(cfg, ViewOf(s, u), log, T) && Sorted(log) && Sorted(Logged(log, a, u))
    requires Prune(cfg, T, Get(s.entries, u)) == Prune(cfg, T, log)
    ensures Prune(cfg, T, Get(Step(cfg, s, a).entries, u)) == Prune(cfg, T, Logged(log, a, u))
  {
    StepLocal(cfg, s, a, u);
    LocalRefines(cfg, ViewOf(s, u), Localize(s, a, u), log, T);
  }

  /** Without deletions of u's entries, All at T is what pruning everything u ever saved would give,
      through any number of evictions, compactions and restarts. */
  lemma {:induction false} RefinesFullLog(cfg: Limits, start: int, run: seq<Action>, u: string, T: int)
    requires Valid(cfg, start, run) && Undisturbed(cfg, start, run, u) && Sorted(SavedBy(run, u))
    requires After(cfg, start, run).now <= T && !DeletesFrom(run, u)
    ensures Prune(cfg, T, Get(After(cfg, start, run).entries, u)) == Prune(cfg, T, SavedBy(run, u))
  {
    if run != [] {
      var front := Front(run);
      assert !DeletesFrom(front, u) && run[|run| - 1] == Last(run);
      SavedByFront(run, u);
      RefinesFullLog(cfg, start, front, u, T);
      ReplayAgrees(cfg, start, front, u, T);
      StepRefines(cfg, After(cfg, start, front), Last(run), u, SavedBy(front, u), T);
    }
  }

  lemma LocalRefines(cfg: Limits, v: View, l: Local, log: seq<Entry>, T: int)
    requires Agrees(cfg, v, log, T) && Prune(cfg, T, v.kept) == Prune(cfg, T, log) && Sorted(log)
    requires (l.Saves? ==> l.at <= T && Sorted(log + [l.e])) && (l.Deletes? ==> l.i >= |v.kept|)
    requires (l.Reads? ==> l.at <= T) && (l.Compacts? ==> l.at <= T) && (l.Restarts? ==> l.at <= T && v.waiting == [])
    ensures Prune(cfg, T, LocalStep(cfg, v, l).kept) == Prune(cfg, T, if l.Saves? then log + [l.e] else log)
  {
    match l
    case Saves(e, at) =>
      SnocChronological(log, v.kept, e);
      PruneTwice(cfg, at, T, v.kept + [e]);
      PruneAbsorbs(cfg, T, T, v.kept, [e]);
      PruneAbsorbs(cfg, T, T, log, [e]);
    case Reads(at) => PruneTwice(cfg, at, T, v.kept);
    case Compacts(at) => PruneTwice(cfg, at, T, v.kept);
    case Restarts(at) =>
      assert v.lines + v.waiting == v.lines;
      PruneTwice(cfg, at, T, v.lines);
    case Idle =>
    case Appends =>
    case Deletes(i) =>
  }
}
