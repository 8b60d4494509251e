/** The persistent session store: conversation histories trimmed turn by turn in memory, and a journal
    of deltas that a restart replays, trims once, and compacts.

    Messages are strings. An expiry of None is Go's zero time: never. A restart compacts in the order in
    which Go happens to walk its map, so the action carries the order of keys. */
module Session {
  import opened Seqs

  type Msg = string
  datatype Delta = Delta(key: string, msgs: seq<Msg>, expiresAt: Option<int>)
  datatype Entry = Entry(msgs: seq<Msg>, expiresAt: Option<int>)
  datatype Config = Config(ttl: int, maxTurns: int)
  type Table = map<string, Entry>

  function Trim(cfg: Config, s: seq<Msg>): seq<Msg> {
    if cfg.maxTurns > 0 then TakeLast(s, 2 * cfg.maxTurns) else s
  }

  predicate Expired(at: Option<int>, now: int) {
    at.Some? && now > at.value
  }

  function Expiry(cfg: Config, now: int): Option<int> {
    if cfg.ttl > 0 then Some(now + cfg.ttl) else None
  }

  /** Trimming after every turn and trimming once at the end keep the same messages. */
  lemma TrimAbsorbs(cfg: Config, a: seq<Msg>, b: seq<Msg>)
    ensures Trim(cfg, Trim(cfg, a) + b) == Trim(cfg, a + b)
  {
    if cfg.maxTurns > 0 {
      TakeLastAbsorbs(a, b, 2 * cfg.maxTurns);
    }
  }

  lemma TrimTwice(cfg: Config, a: seq<Msg>)
    ensures Trim(cfg, Trim(cfg, a)) == Trim(cfg, a)
  {
  }

  // ----- journals

  /** All messages of key k in the journal, in order. */
  function MsgsOf(j: seq<Delta>, k: string): seq<Msg> {
    if j == [] then []
    else if Last(j).key == k then MsgsOf(Front(j), k) + Last(j).msgs
    else MsgsOf(Front(j), k)
  }

  /** The last line of key k: it alone decides when the session expires. */
  function LastLine(j: seq<Delta>, k: string): Option<Delta> {
    if j == [] then None else if Last(j).key == k then Some(Last(j)) else LastLine(Front(j), k)
  }

  function Keys(j: seq<Delta>): set<string> {
    if j == [] then {} else Keys(Front(j)) + {Last(j).key}
  }

  predicate LiveIn(j: seq<Delta>, k: string, now: int) {
    LastLine(j, k).Some? && !Expired(LastLine(j, k).value.expiresAt, now)
  }

  /** The sessions that replaying j at time `now` loads. */
  function Replayed(cfg: Config, now: int, j: seq<Delta>): Table {
    map k | k in Keys(j) && LiveIn(j, k, now) :: Entry(Trim(cfg, MsgsOf(j, k)), LastLine(j, k).value.expiresAt)
  }

  /** One line per session, in the given order of keys. */
  function Lines(m: Table, order: seq<string>): seq<Delta> {
    if order == [] then []
    else if Last(order) in m then
      Lines(m, Front(order)) + [Delta(Last(order), m[Last(order)].msgs, m[Last(order)].expiresAt)]
    else Lines(m, Front(order))
  }

  ghost predicate Enumerates(order: seq<string>, m: Table) {
    && (forall i, j :: 0 <= i < j < |order| ==> order[i] != order[j])
    && (forall k :: k in order <==> k in m)
  }

  /** The journal after a restart: rewritten when it has more lines than live sessions. */
  function Compacted(cfg: Config, now: int, j: seq<Delta>, order: seq<string>): seq<Delta> {
    var m := Replayed(cfg, now, j);
    if |j| > |m| then Lines(m, order) else j
  }

  lemma {:induction false} KeysAndLines(j: seq<Delta>, k: string)
    ensures k in Keys(j) <==> LastLine(j, k).Some?
    ensures k !in Keys(j) ==> MsgsOf(j, k) == []
    ensures LastLine(j, k).Some? ==> LastLine(j, k).value.key == k
  {
    if j != [] {
      KeysAndLines(Front(j), k);
    }
  }

  lemma {:induction false} KeysBounded(j: seq<Delta>)
    ensures |Keys(j)| <= |j|
  {
    if j != [] {
      KeysBounded(Front(j));
    }
  }

  lemma {:induction false} LinesOf(m: Table, order: seq<string>, k: string)
    requires forall i, j :: 0 <= i < j < |order| ==> order[i] != order[j]
    ensures MsgsOf(Lines(m, order), k) == if k in order && k in m then m[k].msgs else []
    ensures LastLine(Lines(m, order), k) ==
            if k in order && k in m then Some(Delta(k, m[k].msgs, m[k].expiresAt)) else None
  {
    if order != [] {
      var front, l := Front(order), Last(order);
      LinesOf(m, front, k);
      assert k in order <==> k in front || k == l;
      if l in m {
        assert Front(Lines(m, order)) == Lines(m, front);
      }
    }
  }

  /** Compaction is skipped only when no key has lapsed. */
  lemma LapsedIsCompacted(cfg: Config, now: int, j: seq<Delta>, k: string)
    requires k in Keys(j) && !LiveIn(j, k, now)
    ensures |j| > |Replayed(cfg, now, j)|
  {
    var m := Replayed(cfg, now, j);
    KeysBounded(j);
    assert m.Keys <= Keys(j) - {k};
    SubsetSize(m.Keys, Keys(j) - {k});
    assert |m| == |m.Keys|;
  }

  /** What compaction leaves of key k: its trimmed history and expiry if it is live, nothing if not. */
  lemma CompactedKey(cfg: Config, now: int, j: seq<Delta>, order: seq<string>, k: string)
    requires Enumerates(order, Replayed(cfg, now, j))
    ensures var c := Compacted(cfg, now, j, order);
            if LiveIn(j, k, now) then
              && Trim(cfg, MsgsOf(c, k)) == Trim(cfg, MsgsOf(j, k))
              && LastLine(c, k).Some? && LastLine(c, k).value.expiresAt == LastLine(j, k).value.expiresAt
            else MsgsOf(c, k) == [] && LastLine(c, k) == None
  {
    var m := Replayed(cfg, now, j);
    KeysAndLines(j, k);
    LinesOf(m, order, k);
    TrimTwice(cfg, MsgsOf(j, k));
    if k in Keys(j) && !LiveIn(j, k, now) {
      LapsedIsCompacted(cfg, now, j, k);
    }
  }

  lemma {:induction false} Appended(j: seq<Delta>, t: seq<Delta>, k: string)
    ensures MsgsOf(j + t, k) == MsgsOf(j, k) + MsgsOf(t, k)
    ensures LastLine(j + t, k) == if LastLine(t, k).Some? then LastLine(t, k) else LastLine(j, k)
  {
    if t == [] {
      assert j + t == j;
    } else {
      Appended(j, Front(t), k);
      assert Front(j + t) == j + Front(t);
      if Last(t).key == k {
        ConcatAssociates(MsgsOf(j, k), MsgsOf(Front(t), k), Last(t).msgs);
      }
    }
  }

  /** Compaction preserves meaning: whatever is appended later, a live key replays to the same history
      and the same expiry as if the journal had never been compacted. */
  lemma CompactionPreserves(cfg: Config, now: int, j: seq<Delta>, order: seq<string>, t: seq<Delta>, k: string)
    requires Enumerates(order, Replayed(cfg, now, j)) && LiveIn(j, k, now)
    ensures var c := Compacted(cfg, now, j, order);
            && Trim(cfg, MsgsOf(c + t, k)) == Trim(cfg, MsgsOf(j + t, k))
            && LastLine(c + t, k).Some? && LastLine(j + t, k).Some?
            && LastLine(c + t, k).value.expiresAt == LastLine(j + t, k).value.expiresAt
  {
    var c := Compacted(cfg, now, j, order);
    CompactedKey(cfg, now, j, order, k);
    Appended(c, t, k);
    Appended(j, t, k);
    TrimAbsorbs(cfg, MsgsOf(c, k), MsgsOf(t, k));
    TrimAbsorbs(cfg, MsgsOf(j, k), MsgsOf(t, k));
  }

  function LinesFor(j: seq<Delta>, k: string): seq<Delta> {
    Filter((d: Delta) => d.key == k, j)
  }

  lemma {:induction false} OwnLinesDecide(j: seq<Delta>, k: string)
    ensures MsgsOf(j, k) == MsgsOf(LinesFor(j, k), k) && LastLine(j, k) == LastLine(LinesFor(j, k), k)
  {
    if j != [] {
      OwnLinesDecide(Front(j), k);
    }
  }

  /** The order of lines of different keys is irrelevant to replay. */
  lemma CrossKeyOrderIrrelevant(cfg: Config, now: int, a: seq<Delta>, b: seq<Delta>)
    requires forall k :: LinesFor(a, k) == LinesFor(b, k)
    ensures Replayed(cfg, now, a) == Replayed(cfg, now, b)
  {
    forall k ensures MsgsOf(a, k) == MsgsOf(b, k) && LastLine(a, k) == LastLine(b, k) && (k in Keys(a) <==> k in Keys(b)) {
      OwnLinesDecide(a, k);
      OwnLinesDecide(b, k);
      KeysAndLines(a, k);
      KeysAndLines(b, k);
    }
  }

  // ----- the store

  function AppendTurn(cfg: Config, m: Table, k: string, user: Msg, assistant: Msg, now: int): Table {
    var e := if k in m then m[k] else Entry([], None);
    m[k := Entry(Trim(cfg, e.msgs + [user, assistant]), if cfg.ttl > 0 then Some(now + cfg.ttl) else e.expiresAt)]
  }

  function Collected(m: Table, now: int): Table {
    map k | k in m && !Expired(m[k].expiresAt, now) :: m[k]
  }

  function Looked(m: Table, k: string, now: int): Table {
    if k in m && Expired(m[k].expiresAt, now) then m - {k} else m
  }

  /** What a lookup returns. */
  function Found(m: Table, k: string, now: int): Option<seq<Msg>> {
    if k in m && !Expired(m[k].expiresAt, now) then Some(m[k].msgs) else None
  }

  class Store {
    const cfg: Config
    var sessions: Table
    var journal: seq<Delta>

    /** NewPersistentSessionStore: load the live sessions, then compact. */
    constructor (cfg: Config, j: seq<Delta>, now: int)
      ensures this.cfg == cfg && sessions == Replayed(cfg, now, j)
      ensures exists order :: Enumerates(order, sessions) && journal == Compacted(cfg, now, j, order)
    {
      this.cfg := cfg;
      this.sessions := map[];
      this.journal := j;
      new;
      var acc := Accumulate(j);
      sessions := Load(cfg, now, j, acc);
      var live := WriteSessions(sessions);
      ghost var order :| Enumerates(order, sessions) && live == Lines(sessions, order);
      if |j| > |sessions| {
        journal := live;
      }
      assert journal == Compacted(cfg, now, j, order);
    }

    method Get(k: string, now: int) returns (r: Option<seq<Msg>>)
      modifies this`sessions
      ensures r == Found(old(sessions), k, now)
      ensures sessions == Looked(old(sessions), k, now)
    {
      if k !in sessions {
        return None;
      }
      if Expired(sessions[k].expiresAt, now) {
        sessions := sessions - {k};
        return None;
      }
      return Some(sessions[k].msgs);
    }

    method Delete(k: string)
      modifies this`sessions
      ensures sessions == old(sessions) - {k}
    {
      sessions := sessions - {k};
    }

    /** One tick of the background collector. */
    method Sweep(now: int)
      modifies this`sessions
      ensures sessions == Collected(old(sessions), now)
    {
      ghost var before := sessions;
      var todo := sessions.Keys;
      while todo != {}
        invariant todo <= before.Keys
        invariant forall k :: k in sessions <==> k in before && (k in todo || !Expired(before[k].expiresAt, now))
        invariant forall k :: k in sessions ==> sessions[k] == before[k]
        decreases |todo|
      {
        var k :| k in todo;
        todo := todo - {k};
        if Expired(sessions[k].expiresAt, now) {
          sessions := sessions - {k};
        }
      }
    }

    /** The turn in memory. */
    method Remember(k: string, user: Msg, assistant: Msg, now: int)
      modifies this`sessions
      ensures sessions == AppendTurn(cfg, old(sessions), k, user, assistant, now)
    {
      var e := if k in sessions then sessions[k] else Entry([], None);
      var msgs := e.msgs + [user, assistant];
      if cfg.maxTurns > 0 {
        var max := cfg.maxTurns * 2;
        if |msgs| > max {
          msgs := msgs[|msgs| - max..];
        }
      }
      var expiresAt := e.expiresAt;
      if cfg.ttl > 0 {
        expiresAt := Some(now + cfg.ttl);
      }
      sessions := sessions[k := Entry(msgs, expiresAt)];
    }

    /** The turn in the journal. */
    method WriteLine(k: string, msgs: seq<Msg>, later: int)
      modifies this`journal
      ensures journal == old(journal) + [Delta(k, msgs, Expiry(cfg, later))]
    {
      var expiresAt: Option<int> := None;
      if cfg.ttl > 0 {
        expiresAt := Some(later + cfg.ttl);
      }
      journal := journal + [Delta(k, msgs, expiresAt)];
    }

    /** Without other calls in between; memory and journal read the clock separately. */
    method Append(k: string, user: Msg, assistant: Msg, now: int, later: int)
      modifies this
      ensures sessions == AppendTurn(cfg, old(sessions), k, user, assistant, now)
      ensures journal == old(journal) + [Delta(k, [user, assistant], Expiry(cfg, later))]
    {
      Remember(k, user, assistant, now);
      WriteLine(k, [user, assistant], later);
    }
  }

  /** Concatenate the deltas of every key; the last line of a key sets its expiry. */
  method Accumulate(j: seq<Delta>) returns (acc: Table)
    ensures acc.Keys == Keys(j)
    ensures forall k :: k in acc ==> LastLine(j, k).Some? && acc[k] == Entry(MsgsOf(j, k), LastLine(j, k).value.expiresAt)
  {
    acc := map[];
    for i := 0 to |j|
      invariant acc.Keys == Keys(j[..i])
      invariant forall k :: k in acc ==>
                  LastLine(j[..i], k).Some? && acc[k] == Entry(MsgsOf(j[..i], k), LastLine(j[..i], k).value.expiresAt)
    {
      var d := j[i];
      assert Front(j[..i + 1]) == j[..i];
      KeysAndLines(j[..i], d.key);
      var a := if d.key in acc then acc[d.key] else Entry([], None);
      acc := acc[d.key := Entry(a.msgs + d.msgs, d.expiresAt)];
    }
    assert j[..|j|] == j;
  }

  /** Drop the expired sessions and trim the others. */
  method Load(cfg: Config, now: int, ghost j: seq<Delta>, acc: Table) returns (m: Table)
    requires acc.Keys == Keys(j)
    requires forall k :: k in acc ==> LastLine(j, k).Some? && acc[k] == Entry(MsgsOf(j, k), LastLine(j, k).value.expiresAt)
    ensures m == Replayed(cfg, now, j)
  {
    m := map[];
    var todo := acc.Keys;
    ghost var all := Replayed(cfg, now, j);
    while todo != {}
      invariant todo <= acc.Keys
      invariant forall k :: k in m <==> k in all && k !in todo
      invariant forall k :: k in m ==> m[k] == all[k]
      decreases |todo|
    {
      var k :| k in todo;
      todo := todo - {k};
      if !Expired(acc[k].expiresAt, now) {
        var msgs := acc[k].msgs;
        if cfg.maxTurns > 0 && |msgs| > cfg.maxTurns * 2 {
          msgs := msgs[|msgs| - cfg.maxTurns * 2..];
        }
        m := m[k := Entry(msgs, acc[k].expiresAt)];
      }
    }
  }

  method WriteSessions(m: Table) returns (lines: seq<Delta>)
    ensures exists order :: Enumerates(order, m) && lines == Lines(m, order)
  {
    lines := [];
    ghost var order: seq<string> := [];
    var todo := m.Keys;
    while todo != {}
      invariant todo <= m.Keys
      invariant forall i, j :: 0 <= i < j < |order| ==> order[i] != order[j]
      invariant forall k :: k in order <==> k in m && k !in todo
      invariant lines == Lines(m, order)
      decreases |todo|
    {
      var k :| k in todo;
      todo := todo - {k};
      lines := lines + [Delta(k, m[k].msgs, m[k].expiresAt)];
      assert Front(order + [k]) == order;
      order := order + [k];
    }
    assert Enumerates(order, m);
  }

  // ----- runs

  datatype Turn = Turn(key: string, msgs: seq<Msg>)

  /** `pending` are turns that an Append has put in memory but not yet written to the journal. */
  datatype State = State(sessions: Table, journal: seq<Delta>, pending: seq<Turn>)

  datatype Action =
    | Append(key: string, user: Msg, assistant: Msg, at: int)
    | Write(i: nat, later: int)
    | Get(key: string, at: int)
    | Gc(at: int)
    | Delete(key: string)
    | Restart(at: int, order: seq<string>)

  function Line(cfg: Config, t: Turn, later: int): Delta {
    Delta(t.key, t.msgs, Expiry(cfg, later))
  }

  function Step(cfg: Config, s: State, a: Action): State {
    match a
    case Append(k, user, assistant, at) =>
      s.(sessions := AppendTurn(cfg, s.sessions, k, user, assistant, at), pending := s.pending + [Turn(k, [user, assistant])])
    case Write(i, later) =>
      if i < |s.pending|
      then s.(journal := s.journal + [Line(cfg, s.pending[i], later)], pending := RemoveAt(s.pending, i)) else s
    case Get(k, at) => s.(sessions := Looked(s.sessions, k, at))
    case Gc(at) => s.(sessions := Collected(s.sessions, at))
    case Delete(k) => s.(sessions := s.sessions - {k})
    case Restart(at, order) => State(Replayed(cfg, at, s.journal), Compacted(cfg, at, s.journal, order), [])
  }

  function After(cfg: Config, run: seq<Action>): State {
    if run == [] then State(map[], [], []) else Step(cfg, After(cfg, Front(run)), Last(run))
  }

  /** Restarts write every live session once. */
  ghost predicate Enabled(cfg: Config, s: State, a: Action) {
    a.Restart? ==> Enumerates(a.order, Replayed(cfg, a.at, s.journal))
  }

  ghost predicate Valid(cfg: Config, run: seq<Action>) {
    run != [] ==> Valid(cfg, Front(run)) && Enabled(cfg, After(cfg, Front(run)), Last(run))
  }

  /** The action writes a line of key k. */
  predicate Writes(s: State, a: Action, k: string) {
    a.Write? && a.i < |s.pending| && s.pending[a.i].key == k
  }

  /** The action is a restart that finds no live line of key k. */
  predicate Drops(s: State, a: Action, k: string) {
    a.Restart? && !LiveIn(s.journal, k, a.at)
  }

  /** Everything ever written for k; a restart that finds the session lapsed starts it afresh. */
  function Written(cfg: Config, run: seq<Action>, k: string): seq<Msg> {
    if run == [] then [] else
      var s, h, a := After(cfg, Front(run)), Written(cfg, Front(run), k), Last(run);
      if Writes(s, a, k) then h + s.pending[a.i].msgs else if Drops(s, a, k) then [] else h
  }

  /** When k was last written, if its session has not lapsed since. */
  function WrittenAt(cfg: Config, run: seq<Action>, k: string): Option<int> {
    if run == [] then None else
      var s, a := After(cfg, Front(run)), Last(run);
      if Writes(s, a, k) then Some(a.later) else if Drops(s, a, k) then None else WrittenAt(cfg, Front(run), k)
  }

  lemma LineAppended(cfg: Config, j: seq<Delta>, d: Delta, k: string)
    ensures MsgsOf(j + [d], k) == if d.key == k then MsgsOf(j, k) + d.msgs else MsgsOf(j, k)
    ensures LastLine(j + [d], k) == if d.key == k then Some(d) else LastLine(j, k)
    ensures Keys(j + [d]) == Keys(j) + {d.key}
  {
    assert Front(j + [d]) == j;
  }

  /** The journal is faithful through every interleaving, restart and compaction, whatever is deleted or
      expires in memory: it replays each key to everything written for it, trimmed once, with the expiry
      of the last write. */
  lemma {:induction false} JournalFaithful(cfg: Config, run: seq<Action>, k: string)
    requires Valid(cfg, run)
    ensures var j := After(cfg, run).journal;
            && Trim(cfg, MsgsOf(j, k)) == Trim(cfg, Written(cfg, run, k))
            && (LastLine(j, k).Some? <==> WrittenAt(cfg, run, k).Some?)
            && (LastLine(j, k).Some? ==> LastLine(j, k).value.expiresAt == Expiry(cfg, WrittenAt(cfg, run, k).value))
  {
    if run != [] {
      JournalFaithful(cfg, Front(run), k);
      var s, a, h := After(cfg, Front(run)), Last(run), Written(cfg, Front(run), k);
      if a.Write? && a.i < |s.pending| {
        LineAppended(cfg, s.journal, Line(cfg, s.pending[a.i], a.later), k);
        TrimAbsorbs(cfg, MsgsOf(s.journal, k), s.pending[a.i].msgs);
        TrimAbsorbs(cfg, h, s.pending[a.i].msgs);
      } else if a.Restart? {
        CompactedKey(cfg, a.at, s.journal, a.order, k);
      }
    }
  }

  // ----- replay agrees with memory

  /** The action takes session k out of memory, other than by finding it lapsed in the journal. */
  predicate Removes(s: State, a: Action, k: string) {
    (a.Delete? && a.key == k) ||
    (((a.Get? && a.key == k) || a.Gc?) && k in s.sessions && Expired(s.sessions[k].expiresAt, a.at))
  }

  function PendingMsgs(pending: seq<Turn>, k: string): seq<Msg> {
    if pending == [] then []
    else if Last(pending).key == k then PendingMsgs(Front(pending), k) + Last(pending).msgs
    else PendingMsgs(Front(pending), k)
  }

  predicate Awaits(pending: seq<Turn>, k: string) {
    exists i :: 0 <= i < |pending| && pending[i].key == k
  }

  /** Turns of k are written in the order they were appended, and none is lost in a restart. */
  predicate Calm(s: State, a: Action, k: string) {
    && (a.Restart? ==> !Awaits(s.pending, k))
    && (Writes(s, a, k) ==> !Awaits(s.pending[..a.i], k))
  }

  ghost predicate Undisturbed(cfg: Config, run: seq<Action>, k: string) {
    run != [] ==>
      var s := After(cfg, Front(run));
      Undisturbed(cfg, Front(run), k) && !Removes(s, Last(run), k) && Calm(s, Last(run), k)
  }

  /** Everything ever appended to k; a restart that finds the session lapsed starts it afresh. */
  function History(cfg: Config, run: seq<Action>, k: string): seq<Msg> {
    if run == [] then [] else
      var h, a := History(cfg, Front(run), k), Last(run);
      if a.Append? && a.key == k then h + [a.user, a.assistant] else if Drops(After(cfg, Front(run)), a, k) then [] else h
  }

  lemma {:induction false} NothingPending(pending: seq<Turn>, k: string)
    requires !Awaits(pending, k)
    ensures PendingMsgs(pending, k) == []
  {
    if pending != [] {
      assert pending[|pending| - 1] == Last(pending);
      assert !Awaits(Front(pending), k) by {
        assert forall i :: 0 <= i < |Front(pending)| ==> Front(pending)[i] == pending[i];
      }
      NothingPending(Front(pending), k);
    }
  }

  lemma {:induction false} PendingConcat(a: seq<Turn>, b: seq<Turn>, k: string)
    ensures PendingMsgs(a + b, k) == PendingMsgs(a, k) + PendingMsgs(b, k)
  {
    if b == [] {
      assert a + b == a;
    } else {
      PendingConcat(a, Front(b), k);
      assert Front(a + b) == a + Front(b);
      if Last(b).key == k {
        ConcatAssociates(PendingMsgs(a, k), PendingMsgs(Front(b), k), Last(b).msgs);
      }
    }
  }

  lemma OnePending(t: Turn, k: string)
    ensures PendingMsgs([t], k) == if t.key == k then t.msgs else []
  {
    assert Front([t]) == [];
  }

  lemma PendingSplit(before: seq<Turn>, t: Turn, behind: seq<Turn>, k: string)
    ensures PendingMsgs(before + behind, k) == PendingMsgs(before, k) + PendingMsgs(behind, k)
    ensures PendingMsgs(before + [t] + behind, k) ==
            if t.key == k then PendingMsgs(before, k) + t.msgs + PendingMsgs(behind, k)
            else PendingMsgs(before + behind, k)
  {
    PendingConcat(before, behind, k);
    PendingConcat(before + [t], behind, k);
    PendingSnoc(before, t, k);
  }

  lemma PendingSnoc(before: seq<Turn>, t: Turn, k: string)
    ensures PendingMsgs(before + [t], k) == if t.key == k then PendingMsgs(before, k) + t.msgs else PendingMsgs(before, k)
  {
    assert Front(before + [t]) == before && Last(before + [t]) == t;
  }

  /** What a write in order takes off the pending turns is their first message pair. */
  lemma WriteTakesFirst(s: State, i: nat, k: string)
    requires i < |s.pending| && (s.pending[i].key == k ==> !Awaits(s.pending[..i], k))
    ensures var t := s.pending[i];
            PendingMsgs(s.pending, k) == (if t.key == k then t.msgs else []) + PendingMsgs(RemoveAt(s.pending, i), k)
  {
    var before, t, behind := s.pending[..i], s.pending[i], s.pending[i + 1..];
    SplitAt(s.pending, i);
    PendingSplit(before, t, behind, k);
    if t.key == k {
      NothingPending(before, k);
      assert [] + t.msgs == t.msgs && [] + PendingMsgs(behind, k) == PendingMsgs(behind, k);
    }
  }

  /** Memory holds exactly what replaying the journal, with the turns still to be written, would rebuild. */
  ghost predicate Agrees(cfg: Config, s: State, k: string) {
    && (k in s.sessions <==> k in Keys(s.journal) || Awaits(s.pending, k))
    && (k in s.sessions ==> s.sessions[k].msgs == Trim(cfg, MsgsOf(s.journal, k) + PendingMsgs(s.pending, k)))
  }

  lemma AwaitsSnoc(pending: seq<Turn>, t: Turn, k: string)
    ensures Awaits(pending + [t], k) <==> Awaits(pending, k) || t.key == k
  {
    var all := pending + [t];
    assert all[|pending|] == t && forall i :: 0 <= i < |pending| ==> all[i] == pending[i];
  }

  lemma AwaitsRemoved(pending: seq<Turn>, i: nat, k: string)
    requires i < |pending|
    ensures Awaits(pending, k) <==> Awaits(RemoveAt(pending, i), k) || pending[i].key == k
  {
    var rest := RemoveAt(pending, i);
    assert forall j :: 0 <= j < i ==> rest[j] == pending[j];
    assert forall j :: i < j < |pending| ==> rest[j - 1] == pending[j];
    assert forall j :: i <= j < |rest| ==> rest[j] == pending[j + 1];
  }

  lemma AppendAgrees(cfg: Config, s: State, a: Action, k: string)
    requires Agrees(cfg, s, k) && a.Append?
    ensures Agrees(cfg, Step(cfg, s, a), k)
  {
    var t := Turn(a.key, [a.user, a.assistant]);
    AwaitsSnoc(s.pending, t, k);
    PendingConcat(s.pending, [t], k);
    OnePending(t, k);
    KeysAndLines(s.journal, k);
    if a.key == k {
      if k !in s.sessions {
        NothingPending(s.pending, k);
      }
      var h := MsgsOf(s.journal, k) + PendingMsgs(s.pending, k);
      TrimAbsorbs(cfg, h, t.msgs);
      ConcatAssociates(MsgsOf(s.journal, k), PendingMsgs(s.pending, k), t.msgs);
    } else {
      assert PendingMsgs(s.pending, k) + [] == PendingMsgs(s.pending, k);
    }
  }

  lemma WriteAgrees(cfg: Config, s: State, a: Action, k: string)
    requires Agrees(cfg, s, k) && a.Write? && a.i < |s.pending| && Calm(s, a, k)
    ensures Agrees(cfg, Step(cfg, s, a), k)
  {
    var t := s.pending[a.i];
    LineAppended(cfg, s.journal, Line(cfg, t, a.later), k);
    AwaitsRemoved(s.pending, a.i, k);
    WriteTakesFirst(s, a.i, k);
    ConcatAssociates(MsgsOf(s.journal, k), t.msgs, PendingMsgs(RemoveAt(s.pending, a.i), k));
    assert [] + PendingMsgs(RemoveAt(s.pending, a.i), k) == PendingMsgs(RemoveAt(s.pending, a.i), k);
  }

  lemma RestartAgrees(cfg: Config, s: State, a: Action, k: string)
    requires a.Restart? && Enabled(cfg, s, a)
    ensures Agrees(cfg, Step(cfg, s, a), k)
  {
    var c := Compacted(cfg, a.at, s.journal, a.order);
    CompactedKey(cfg, a.at, s.journal, a.order, k);
    KeysAndLines(s.journal, k);
    KeysAndLines(c, k);
    assert MsgsOf(c, k) + [] == MsgsOf(c, k);
  }

  lemma StepAgrees(cfg: Config, s: State, a: Action, k: string)
    requires Agrees(cfg, s, k) && !Removes(s, a, k) && Calm(s, a, k) && Enabled(cfg, s, a)
    ensures Agrees(cfg, Step(cfg, s, a), k)
  {
    match a
    case Append(_, _, _, _) => AppendAgrees(cfg, s, a, k);
    case Write(i, _) =>
      if i < |s.pending| {
        WriteAgrees(cfg, s, a, k);
      }
    case Restart(_, _) => RestartAgrees(cfg, s, a, k);
    case Get(j, at) =>
    case Gc(at) =>
    case Delete(j) =>
  }

  lemma {:induction false} HistoryWritten(cfg: Config, run: seq<Action>, k: string)
    requires Undisturbed(cfg, run, k)
    ensures History(cfg, run, k) == Written(cfg, run, k) + PendingMsgs(After(cfg, run).pending, k)
  {
    if run != [] {
      HistoryWritten(cfg, Front(run), k);
      var s, a, h := After(cfg, Front(run)), Last(run), Written(cfg, Front(run), k);
      if a.Append? {
        var t := Turn(a.key, [a.user, a.assistant]);
        PendingConcat(s.pending, [t], k);
        OnePending(t, k);
        ConcatAssociates(h, PendingMsgs(s.pending, k), t.msgs);
      } else if a.Write? && a.i < |s.pending| {
        WriteTakesFirst(s, a.i, k);
        ConcatAssociates(h, s.pending[a.i].msgs, PendingMsgs(RemoveAt(s.pending, a.i), k));
      } else if a.Restart? {
        NothingPending(s.pending, k);
      }
    }
  }

  /** While a session is neither deleted nor expired in memory and its turns are written in order, its
      incrementally trimmed history is what replaying all deltas and trimming once gives, with the turns
      still to be written, and both are the trimmed history of its appends. */
  lemma {:induction false} ReplayAgrees(cfg: Config, run: seq<Action>, k: string)
    requires Valid(cfg, run) && Undisturbed(cfg, run, k)
    ensures Agrees(cfg, After(cfg, run), k)
    ensures k in After(cfg, run).sessions ==> After(cfg, run).sessions[k].msgs == Trim(cfg, History(cfg, run, k))
  {
    if run != [] {
      ReplayAgrees(cfg, Front(run), k);
      StepAgrees(cfg, After(cfg, Front(run)), Last(run), k);
    }
    JournalFaithful(cfg, run, k);
    HistoryWritten(cfg, run, k);
    var s := After(cfg, run);
    TrimAbsorbs(cfg, MsgsOf(s.journal, k), PendingMsgs(s.pending, k));
    TrimAbsorbs(cfg, Written(cfg, run, k), PendingMsgs(s.pending, k));
  }

  // ----- where memory and journal part

  lemma AfterNext(cfg: Config, run: seq<Action>, a: Action)
    ensures After(cfg, run + [a]) == Step(cfg, After(cfg, run), a)
    ensures Valid(cfg, run + [a]) <==> Valid(cfg, run) && Enabled(cfg, After(cfg, run), a)
  {
    assert Front(run + [a]) == run && Last(run + [a]) == a;
  }

  /** What a restart finds: the sessions whose last write has not expired, with everything written, trimmed. */
  lemma RestartRestores(cfg: Config, run: seq<Action>, k: string, at: int, order: seq<string>)
    requires Valid(cfg, run)
    ensures var m, t := After(cfg, run + [Restart(at, order)]).sessions, WrittenAt(cfg, run, k);
            && (k in m <==> t.Some? && (cfg.ttl <= 0 || at <= t.value + cfg.ttl))
            && (k in m ==> m[k].msgs == Trim(cfg, Written(cfg, run, k)))
  {
    AfterNext(cfg, run, Restart(at, order));
    JournalFaithful(cfg, run, k);
    KeysAndLines(After(cfg, run).journal, k);
  }

  predicate NoRestart(run: seq<Action>) {
    forall i :: 0 <= i < |run| ==> !run[i].Restart?
  }

  /** Only a restart forgets what was written. */
  lemma {:induction false} WrittenStays(cfg: Config, run: seq<Action>, next: seq<Action>, k: string)
    requires NoRestart(next)
    ensures Written(cfg, run, k) <= Written(cfg, run + next, k)
    ensures WrittenAt(cfg, run, k).Some? ==> WrittenAt(cfg, run + next, k).Some?
  {
    if next == [] {
      assert run + next == run;
    } else {
      WrittenStays(cfg, run, Front(next), k);
      assert Front(run + next) == run + Front(next) && next[|next| - 1] == Last(next);
    }
  }

  lemma DeleteWritesNothing(cfg: Config, run: seq<Action>, k: string)
    ensures k !in After(cfg, run + [Delete(k)]).sessions
    ensures Written(cfg, run + [Delete(k)], k) == Written(cfg, run, k)
    ensures WrittenAt(cfg, run + [Delete(k)], k) == WrittenAt(cfg, run, k)
  {
    AfterNext(cfg, run, Delete(k));
  }

  /** Delete is not durable. In any run, a session that is deleted comes back at the next restart, whatever
      happens until then, exactly when something was ever written for it and the restart is no later than
      the expiry of the last write. It comes back with everything written for it, trimmed, and that starts
      with everything written before the Delete. */
  lemma DeleteUndoneIff(cfg: Config, run: seq<Action>, next: seq<Action>, k: string, at: int, order: seq<string>)
    requires Valid(cfg, run + [Delete(k)] + next) && NoRestart(next)
    ensures k !in After(cfg, run + [Delete(k)]).sessions
    ensures var all := run + [Delete(k)] + next;
            var m, t := After(cfg, all + [Restart(at, order)]).sessions, WrittenAt(cfg, all, k);
            && (k in m <==> t.Some? && (cfg.ttl <= 0 || at <= t.value + cfg.ttl))
            && (k in m ==> m[k].msgs == Trim(cfg, Written(cfg, all, k)))
            && Written(cfg, run, k) <= Written(cfg, all, k)
            && (WrittenAt(cfg, run, k).Some? ==> t.Some?)
  {
    DeleteWritesNothing(cfg, run, k);
    WrittenStays(cfg, run + [Delete(k)], next, k);
    RestartRestores(cfg, run + [Delete(k)] + next, k, at, order);
  }

  lemma SwapMatters(cfg: Config, h: seq<Msg>, p: seq<Msg>, q: seq<Msg>)
    requires |p| == |q| == 2
    ensures Trim(cfg, h + p + q) == Trim(cfg, h + q + p) <==> p == q
  {
    var x, y := Trim(cfg, h + p + q), Trim(cfg, h + q + p);
    EndsWith(cfg, h + p, q);
    EndsWith(cfg, h + q, p);
  }

  lemma EndsWith(cfg: Config, h: seq<Msg>, p: seq<Msg>)
    requires |p| == 2
    ensures var x := Trim(cfg, h + p); |x| >= 2 && x[|x| - 2..] == p
  {
  }

  /** Two turns of k appended one after the other and written the other way round. */
  function Overtaken(cfg: Config, s: State, k: string, p: (Msg, Msg), q: (Msg, Msg), at: int): State {
    var both := Step(cfg, Step(cfg, s, Append(k, p.0, p.1, at)), Append(k, q.0, q.1, at));
    Step(cfg, Step(cfg, both, Write(1, at)), Write(0, at))
  }

  lemma OvertakenState(cfg: Config, s: State, k: string, p: (Msg, Msg), q: (Msg, Msg), at: int)
    requires s.pending == []
    ensures var t := Overtaken(cfg, s, k, p, q, at);
            && t.pending == [] && k in t.sessions
            && t.sessions == AppendTurn(cfg, AppendTurn(cfg, s.sessions, k, p.0, p.1, at), k, q.0, q.1, at)
            && MsgsOf(t.journal, k) == MsgsOf(s.journal, k) + [q.0, q.1] + [p.0, p.1]
  {
    var tp, tq := Turn(k, [p.0, p.1]), Turn(k, [q.0, q.1]);
    assert [] + [tp] + [tq] == [tp, tq] && RemoveAt([tp, tq], 1) == [tp] && RemoveAt([tp], 0) == [];
    LineAppended(cfg, s.journal, Line(cfg, tq, at), k);
    LineAppended(cfg, s.journal + [Line(cfg, tq, at)], Line(cfg, tp, at), k);
  }

  /** The order of writes is needed: when the turns of two concurrent Appends are written the other way
      round, replay disagrees with memory exactly when the turns differ. */
  lemma OvertakingMatters(cfg: Config, run: seq<Action>, k: string, p: (Msg, Msg), q: (Msg, Msg), at: int)
    requires Valid(cfg, run) && Undisturbed(cfg, run, k) && After(cfg, run).pending == []
    ensures var t := Overtaken(cfg, After(cfg, run), k, p, q, at);
            && k in t.sessions
            && (t.sessions[k].msgs == Trim(cfg, MsgsOf(t.journal, k)) <==> p == q)
  {
    var s := After(cfg, run);
    ReplayAgrees(cfg, run, k);
    OvertakenState(cfg, s, k, p, q, at);
    var h := MsgsOf(s.journal, k);
    KeysAndLines(s.journal, k);
    assert h + [] == h;
    TrimAbsorbs(cfg, h, [p.0, p.1]);
    TrimAbsorbs(cfg, h + [p.0, p.1], [q.0, q.1]);
    SwapMatters(cfg, h, [p.0, p.1], [q.0, q.1]);
    assert [p.0, p.1] == [q.0, q.1] <==> p == q;
  }
}
