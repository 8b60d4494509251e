/** The retrieval store's in-memory backend: originals of truncated content, bounded by evicting the
    oldest insertion. */
module Retrieval {
  import opened Seqs

  datatype MemEntry = MemEntry(content: string, expiresAt: Option<int>, insertedAt: int)
  type Entries = map<string, MemEntry>

  predicate Expired(e: MemEntry, now: int) {
    e.expiresAt.Some? && now > e.expiresAt.value
  }

  ghost predicate Oldest(m: Entries, id: string) {
    id in m && forall k :: k in m ==> m[id].insertedAt <= m[k].insertedAt
  }

  /** Insertion into a full store first removes an oldest entry; ties are broken by map order. */
  ghost predicate PutStep(maxSize: int, m: Entries, id: string, e: MemEntry, n: Entries) {
    if maxSize > 0 && |m| >= maxSize then exists k :: Oldest(m, k) && n == (m - {k})[id := e]
    else n == m[id := e]
  }

  class MemoryBackend {
    const maxSize: int
    var entries: Entries

    constructor (maxSize: int)
      ensures this.maxSize == maxSize && entries == map[]
    {
      this.maxSize, entries := maxSize, map[];
    }

    /** IDs are never empty, so "" stands for "none yet". */
    method EvictOldest()
      requires entries != map[] && "" !in entries
      modifies this`entries
      ensures exists k :: Oldest(old(entries), k) && entries == old(entries) - {k}
    {
      var oldestID, oldestAt := "", 0;
      var todo := entries.Keys;
      while todo != {}
        invariant todo <= entries.Keys
        invariant oldestID == "" ==> todo == entries.Keys
        invariant oldestID != "" ==> oldestID in entries && oldestAt == entries[oldestID].insertedAt
        invariant oldestID != "" ==> forall k :: k in entries && k !in todo ==> oldestAt <= entries[k].insertedAt
        decreases |todo|
      {
        var id :| id in todo;
        todo := todo - {id};
        if oldestID == "" || entries[id].insertedAt < oldestAt {
          oldestID, oldestAt := id, entries[id].insertedAt;
        }
      }
      NotEmpty(entries);
      assert Oldest(entries, oldestID);
      if oldestID != "" {
        entries := entries - {oldestID};
      }
    }

    method Put(id: string, content: string, ttl: int, now: int)
      requires "" !in entries && id != ""
      modifies this`entries
      ensures "" !in entries
      ensures PutStep(maxSize, old(entries), id, MemEntry(content, if ttl > 0 then Some(now + ttl) else None, now), entries)
    {
      var exp := if ttl > 0 then Some(now + ttl) else None;
      if maxSize > 0 && |entries| >= maxSize {
        assert entries != map[];
        EvictOldest();
      }
      entries := entries[id := MemEntry(content, exp, now)];
    }

    method Get(id: string, now: int) returns (r: Option<string>)
      modifies this`entries
      ensures r == Fetched(old(entries), id, now)
      ensures entries == Looked(old(entries), id, now)
    {
      if id !in entries {
        return None;
      }
      if Expired(entries[id], now) {
        entries := entries - {id};
        return None;
      }
      return Some(entries[id].content);
    }
  }

  lemma NotEmpty(m: Entries)
    requires m != map[]
    ensures m.Keys != {}
  {
  }

  /** What a Get returns. */
  function Fetched(m: Entries, id: string, now: int): Option<string> {
    if id in m && !Expired(m[id], now) then Some(m[id].content) else None
  }

  function Looked(m: Entries, id: string, now: int): Entries {
    if id in m && Expired(m[id], now) then m - {id} else m
  }

  // ----- runs

  datatype Op = Put(id: string, e: MemEntry) | Get(id: string, at: int)

  ghost predicate Next(maxSize: int, m: Entries, op: Op, n: Entries) {
    match op
    case Put(id, e) => PutStep(maxSize, m, id, e, n)
    case Get(id, at) => n == Looked(m, id, at)
  }

  ghost predicate NextAt(maxSize: int, ms: seq<Entries>, ops: seq<Op>, i: nat)
    requires i < |ops| < |ms|
  {
    Next(maxSize, ms[i], ops[i], ms[i + 1])
  }

  ghost predicate Behavior(maxSize: int, ms: seq<Entries>, ops: seq<Op>) {
    |ms| == |ops| + 1 && forall i :: 0 <= i < |ops| ==> NextAt(maxSize, ms, ops, i)
  }

  lemma EvictedSize(m: Entries, k: string, id: string, e: MemEntry)
    requires k in m
    ensures |(m - {k})[id := e]| <= |m|
  {
    var n := (m - {k})[id := e];
    assert n.Keys == m.Keys - {k} + {id};
    assert |n| == |n.Keys| && |m| == |m.Keys|;
  }

  lemma AddedSize(m: Entries, id: string, e: MemEntry)
    ensures |m[id := e]| <= |m| + 1
  {
    assert m[id := e].Keys == m.Keys + {id};
    assert |m[id := e]| == |m[id := e].Keys| && |m| == |m.Keys|;
  }

  lemma RemovedSize(m: Entries, id: string)
    ensures |m - {id}| <= |m|
  {
    assert (m - {id}).Keys == m.Keys - {id};
    assert |m - {id}| == |(m - {id}).Keys| && |m| == |m.Keys|;
  }

  /** A bounded store never grows beyond its bound. */
  lemma {:induction false} SizeBounded(maxSize: int, ms: seq<Entries>, ops: seq<Op>, n: nat)
    requires Behavior(maxSize, ms, ops) && maxSize > 0 && |ms[0]| <= maxSize && n <= |ops|
    ensures |ms[n]| <= maxSize
  {
    if n > 0 {
      SizeBounded(maxSize, ms, ops, n - 1);
      var m, op := ms[n - 1], ops[n - 1];
      assert NextAt(maxSize, ms, ops, n - 1);
      match op
      case Put(id, e) =>
        if |m| >= maxSize {
          var k :| Oldest(m, k) && ms[n] == (m - {k})[id := e];
          EvictedSize(m, k, id, e);
        } else {
          AddedSize(m, id, e);
        }
      case Get(id, at) => RemovedSize(m, id);
    }
  }

  function Newer(m: Entries, t: int): set<string> {
    set k | k in m && m[k].insertedAt > t
  }

  /** id is stored as e, alone at its insertion time, with at most k newer entries. */
  ghost predicate Holding(m: Entries, id: string, e: MemEntry, k: nat) {
    && id in m && m[id] == e
    && (forall j :: j in m && j != id ==> m[j].insertedAt != e.insertedAt)
    && |Newer(m, e.insertedAt)| <= k
  }

  /** An entry that is oldest in a full store has maxSize - 1 newer ones. */
  lemma OldestHasNewer(m: Entries, id: string, e: MemEntry, k: nat)
    requires Holding(m, id, e, k) && Oldest(m, id)
    ensures |m| <= k + 1
  {
    var all := Newer(m, e.insertedAt) + {id};
    assert m.Keys <= all;
    SubsetSize(m.Keys, all);
    assert |m| == |m.Keys|;
  }

  lemma NewerAfterPut(m: Entries, n: Entries, j: string, f: MemEntry, t: int)
    requires n.Keys <= m.Keys + {j} && forall x :: x in n && x != j ==> n[x] == m[x]
    ensures |Newer(n, t)| <= |Newer(m, t)| + 1
  {
    SubsetSize(Newer(n, t), Newer(m, t) + {j});
  }

  lemma PutKeeps(maxSize: int, m: Entries, j: string, f: MemEntry, n: Entries, id: string, e: MemEntry, k: nat)
    requires Holding(m, id, e, k) && PutStep(maxSize, m, j, f, n) && j != id && f.insertedAt > e.insertedAt
    requires maxSize <= 0 || k + 1 < maxSize
    ensures Holding(n, id, e, k + 1)
  {
    if maxSize > 0 && |m| >= maxSize {
      var x :| Oldest(m, x) && n == (m - {x})[j := f];
      if x == id {
        OldestHasNewer(m, id, e, k);
      }
      NewerAfterPut(m, n, j, f, e.insertedAt);
    } else {
      NewerAfterPut(m, n, j, f, e.insertedAt);
    }
  }

  lemma GetKeeps(m: Entries, j: string, at: int, id: string, e: MemEntry, k: nat)
    requires Holding(m, id, e, k) && !(j == id && Expired(e, at))
    ensures Holding(Looked(m, j, at), id, e, k)
  {
    SubsetSize(Newer(Looked(m, j, at), e.insertedAt), Newer(m, e.insertedAt));
  }

  /** Puts among ops[i..j]. */
  function Puts(ops: seq<Op>, i: nat, j: nat): nat
    requires i <= j <= |ops|
  {
    if i == j then 0 else Puts(ops, i, j - 1) + if ops[j - 1].Put? then 1 else 0
  }

  /** Every Put has its own ID and a later insertion time than everything before it. */
  ghost predicate FreshPuts(m: Entries, ops: seq<Op>) {
    && (forall j, k :: 0 <= j < |ops| && ops[j].Put? && k in m ==> k != ops[j].id && m[k].insertedAt < ops[j].e.insertedAt)
    && (forall i, j :: 0 <= i < j < |ops| && ops[i].Put? && ops[j].Put? ==>
          ops[i].id != ops[j].id && ops[i].e.insertedAt < ops[j].e.insertedAt)
  }

  /** Before operation n every entry is older than any Put still to come. */
  lemma {:induction false} AllOlder(maxSize: int, ms: seq<Entries>, ops: seq<Op>, n: nat, j: nat)
    requires Behavior(maxSize, ms, ops) && FreshPuts(ms[0], ops) && n <= j < |ops| && ops[j].Put?
    ensures forall k :: k in ms[n] ==> k != ops[j].id && ms[n][k].insertedAt < ops[j].e.insertedAt
  {
    if n > 0 {
      AllOlder(maxSize, ms, ops, n - 1, j);
      assert NextAt(maxSize, ms, ops, n - 1);
    }
  }

  lemma JustPut(maxSize: int, ms: seq<Entries>, ops: seq<Op>, i: nat)
    requires Behavior(maxSize, ms, ops) && FreshPuts(ms[0], ops) && i < |ops| && ops[i].Put?
    ensures Holding(ms[i + 1], ops[i].id, ops[i].e, 0)
  {
    AllOlder(maxSize, ms, ops, i, i);
    assert NextAt(maxSize, ms, ops, i);
    assert Newer(ms[i + 1], ops[i].e.insertedAt) == {};
  }

  /** What Put number i stored stays until it is asked for after its expiry, or maxSize more Puts. */
  lemma {:induction false} Retained(maxSize: int, ms: seq<Entries>, ops: seq<Op>, i: nat, n: nat)
    requires Behavior(maxSize, ms, ops) && FreshPuts(ms[0], ops) && i < n <= |ops| && ops[i].Put?
    requires maxSize <= 0 || Puts(ops, i + 1, n) < maxSize
    requires forall j :: i < j < n && ops[j].Get? && ops[j].id == ops[i].id ==> !Expired(ops[i].e, ops[j].at)
    ensures Holding(ms[n], ops[i].id, ops[i].e, Puts(ops, i + 1, n))
  {
    if n == i + 1 {
      JustPut(maxSize, ms, ops, i);
    } else {
      Retained(maxSize, ms, ops, i, n - 1);
      var op := ops[n - 1];
      assert NextAt(maxSize, ms, ops, n - 1);
      match op
      case Put(j, f) => PutKeeps(maxSize, ms[n - 1], j, f, ms[n], ops[i].id, ops[i].e, Puts(ops, i + 1, n - 1));
      case Get(j, at) => GetKeeps(ms[n - 1], j, at, ops[i].id, ops[i].e, Puts(ops, i + 1, n - 1));
    }
  }

  /** Content stays retrievable until it expires or maxSize more Puts have been made. */
  lemma Retrievable(maxSize: int, ms: seq<Entries>, ops: seq<Op>, i: nat, n: nat)
    requires Behavior(maxSize, ms, ops) && FreshPuts(ms[0], ops) && i < n <= |ops| && ops[i].Put?
    requires maxSize <= 0 || Puts(ops, i + 1, n) < maxSize
    requires forall j :: i < j < n && ops[j].Get? && ops[j].id == ops[i].id ==> !Expired(ops[i].e, ops[j].at)
    ensures ops[i].id in ms[n] && ms[n][ops[i].id] == ops[i].e
  {
    Retained(maxSize, ms, ops, i, n);
  }

  // ----- the bound is exact

  function Ids(ops: seq<Op>, i: nat, j: nat): set<string>
    requires i <= j <= |ops|
  {
    if i == j then {} else Ids(ops, i, j - 1) + {ops[j - 1].id}
  }

  lemma {:induction false} PutsCount(ops: seq<Op>, i: nat, j: nat)
    requires i <= j <= |ops| && forall k :: i <= k < j ==> ops[k].Put?
    ensures Puts(ops, i, j) == j - i
  {
    if i < j {
      PutsCount(ops, i, j - 1);
    }
  }

  lemma {:induction false} IdsMember(ops: seq<Op>, i: nat, j: nat, x: string) returns (k: nat)
    requires i <= j <= |ops| && x in Ids(ops, i, j)
    ensures i <= k < j && ops[k].id == x
  {
    if ops[j - 1].id == x {
      k := j - 1;
    } else {
      k := IdsMember(ops, i, j - 1, x);
    }
  }

  ghost predicate DistinctIds(ops: seq<Op>) {
    forall i, j :: 0 <= i < j < |ops| ==> ops[i].id != ops[j].id
  }

  lemma {:induction false} IdsSize(ops: seq<Op>, i: nat, j: nat)
    requires DistinctIds(ops) && i <= j <= |ops|
    ensures |Ids(ops, i, j)| == j - i
  {
    if i < j {
      IdsSize(ops, i, j - 1);
      if ops[j - 1].id in Ids(ops, i, j - 1) {
        var k := IdsMember(ops, i, j - 1, ops[j - 1].id);
      }
    }
  }

  lemma SameSize(a: set<string>, b: set<string>)
    requires a <= b && |b| <= |a|
    ensures a == b
  {
    if x :| x in b && x !in a {
      SubsetSize(a, b - {x});
    }
  }

  ghost predicate OnlyPuts(ops: seq<Op>) {
    forall k :: 0 <= k < |ops| ==> ops[k].Put?
  }

  /** Puts that fit the store are all still there at the end. */
  lemma FittingPutsKept(maxSize: int, ms: seq<Entries>, ops: seq<Op>, q: nat)
    requires Behavior(maxSize, ms, ops) && FreshPuts(ms[0], ops) && OnlyPuts(ops) && q < |ops|
    requires maxSize <= 0 || |ops| <= maxSize
    ensures ops[q].id in Last(ms) && Last(ms)[ops[q].id] == ops[q].e
  {
    PutsCount(ops, q + 1, |ops|);
    Retrievable(maxSize, ms, ops, q, |ops|);
  }

  lemma NewestKept(maxSize: int, ms: seq<Entries>, ops: seq<Op>, x: string)
    requires Behavior(maxSize, ms, ops) && FreshPuts(ms[0], ops) && OnlyPuts(ops) && 0 < maxSize <= |ops|
    requires x in Ids(ops, |ops| - maxSize, |ops|)
    ensures x in ms[|ops|]
  {
    var i := IdsMember(ops, |ops| - maxSize, |ops|, x);
    PutsCount(ops, i + 1, |ops|);
    Retrievable(maxSize, ms, ops, i, |ops|);
  }

  lemma AllNewestKept(maxSize: int, ms: seq<Entries>, ops: seq<Op>)
    requires Behavior(maxSize, ms, ops) && FreshPuts(ms[0], ops) && OnlyPuts(ops) && 0 < maxSize <= |ops|
    ensures Ids(ops, |ops| - maxSize, |ops|) <= ms[|ops|].Keys
  {
    forall x | x in Ids(ops, |ops| - maxSize, |ops|) ensures x in ms[|ops|].Keys {
      NewestKept(maxSize, ms, ops, x);
    }
  }

  lemma KeysBounded(maxSize: int, ms: seq<Entries>, ops: seq<Op>)
    requires Behavior(maxSize, ms, ops) && maxSize > 0 && ms[0] == map[]
    ensures |ms[|ops|].Keys| <= maxSize
  {
    SizeBounded(maxSize, ms, ops, |ops|);
    assert |ms[|ops|]| == |ms[|ops|].Keys|;
  }

  lemma FreshIsDistinct(m: Entries, ops: seq<Op>)
    requires FreshPuts(m, ops) && OnlyPuts(ops)
    ensures DistinctIds(ops)
  {
  }

  /** After at least maxSize Puts and nothing else, a store that was empty holds exactly the last
      maxSize of them. */
  lemma KeepsTheNewest(maxSize: int, ms: seq<Entries>, ops: seq<Op>)
    requires Behavior(maxSize, ms, ops) && FreshPuts(ms[0], ops) && OnlyPuts(ops) && 0 < maxSize <= |ops|
    requires ms[0] == map[]
    ensures ms[|ops|].Keys == Ids(ops, |ops| - maxSize, |ops|)
  {
    FreshIsDistinct(ms[0], ops);
    IdsSize(ops, |ops| - maxSize, |ops|);
    KeysBounded(maxSize, ms, ops);
    AllNewestKept(maxSize, ms, ops);
    SameSize(Ids(ops, |ops| - maxSize, |ops|), ms[|ops|].Keys);
  }

  /** A Get drops the entry asked for exactly when it is past its expiry, and leaves all others. */
  lemma LookedIs(m: Entries, id: string, now: int, k: string)
    ensures k in Looked(m, id, now) <==> k in m && !(k == id && m[k].expiresAt.Some? && m[k].expiresAt.value < now)
    ensures k in Looked(m, id, now) ==> Looked(m, id, now)[k] == m[k]
  {
  }
}
