/** The race between a Save and a rewrite of the memory journal: the memory step of a Save and its append
    are separate critical sections, and a compaction or a Delete may rewrite the journal between them. Two
    appends of one user may also be written in the opposite order of their saves. */
module MemoryRaces {
  import opened Seqs
  import opened MemoryStore

  ghost predicate OnlyCopies(s: seq<Entry>, e: Entry) {
    forall i :: 0 <= i < |s| ==> s[i] == e
  }

  /** Shifting an element into a list of fixed length changes it unless the list is copies of it. */
  lemma ShiftChanges(s: seq<Entry>, e: Entry)
    requires s != []
    ensures s[1..] + [e] == s <==> OnlyCopies(s, e)
  {
    if s[1..] + [e] == s {
      AllShifted(s, e, |s|);
    }
  }

  lemma {:induction false} AllShifted(s: seq<Entry>, e: Entry, n: nat)
    requires s != [] && s[1..] + [e] == s && n <= |s|
    ensures forall i :: |s| - n <= i < |s| ==> s[i] == e
  {
    if n > 0 {
      AllShifted(s, e, n - 1);
      var k := |s| - n;
      assert s[k] == (s[1..] + [e])[k];
    }
  }

  lemma CapChanges(cfg: Limits, f: seq<Entry>, e: Entry)
    ensures Cap(cfg, f + [e]) != Cap(cfg, f) <==>
            !(0 < cfg.maxPerUser <= |f| && OnlyCopies(Cap(cfg, f), e))
  {
    if 0 < cfg.maxPerUser <= |f| {
      ShiftChanges(Cap(cfg, f), e);
      assert Cap(cfg, f + [e]) == Cap(cfg, f)[1..] + [e];
    } else {
      assert |Cap(cfg, f + [e])| == |Cap(cfg, f)| + 1;
    }
  }

  /** A full list that holds nothing but copies of e: one copy more changes nothing. */
  ghost predicate FullOf(cfg: Limits, s: seq<Entry>, e: Entry) {
    0 < cfg.maxPerUser == |s| && OnlyCopies(s, e)
  }

  lemma PruneChanges(cfg: Limits, T: int, kept: seq<Entry>, e: Entry)
    ensures Prune(cfg, T, kept + [e]) != Prune(cfg, T, kept) <==>
            LiveAt(cfg, T)(e) && !FullOf(cfg, Prune(cfg, T, kept), e)
    ensures LiveAt(cfg, T)(e) ==> e in Prune(cfg, T, kept + [e])
  {
    FilterSnoc(LiveAt(cfg, T), kept, e);
    if LiveAt(cfg, T)(e) {
      var f := Filter(LiveAt(cfg, T), kept);
      CapChanges(cfg, f, e);
      assert Last(Cap(cfg, f + [e])) == e;
    }
  }

  lemma LateReplay(cfg: Limits, s: State, i: nat, T: int)
    requires i < |s.pending| && Of(s.journal, s.pending[i].userKey) == Get(s.entries, s.pending[i].userKey)
    ensures var e, t := s.pending[i], Step(cfg, s, Append(i));
            && t.entries == s.entries
            && Get(Replayed(cfg, T, t.journal), e.userKey) == Prune(cfg, T, Get(s.entries, e.userKey) + [e])
  {
    var e := s.pending[i];
    FilterSnoc(OwnedBy(e.userKey), s.journal, e);
    ReplayedGet(cfg, T, s.journal + [e], e.userKey);
  }

  /** An append to a journal that already holds exactly what is in memory. */
  lemma LateEffect(cfg: Limits, s: State, i: nat, T: int)
    requires i < |s.pending| && Of(s.journal, s.pending[i].userKey) == Get(s.entries, s.pending[i].userKey)
    ensures var e, t := s.pending[i], Step(cfg, s, Append(i));
            var restarted, kept := Get(Replayed(cfg, T, t.journal), e.userKey), Prune(cfg, T, Get(t.entries, e.userKey));
            && (restarted != kept <==> LiveAt(cfg, T)(e) && !FullOf(cfg, kept, e))
            && (LiveAt(cfg, T)(e) ==> e in restarted)
  {
    LateReplay(cfg, s, i, T);
    PruneChanges(cfg, T, Get(s.entries, s.pending[i].userKey), s.pending[i]);
  }

  lemma AfterNext(cfg: Limits, start: int, run: seq<Action>, a: Action)
    ensures After(cfg, start, run + [a]) == Step(cfg, After(cfg, start, run), a)
    ensures Valid(cfg, start, run + [a]) <==> Valid(cfg, start, run) && Enabled(cfg, After(cfg, start, run), a)
  {
    assert Front(run + [a]) == run && Last(run + [a]) == a;
  }

  /** After `run`, the actions `next` mean nothing to u: other users' saves, reads and appends. */
  ghost predicate Quiet(cfg: Limits, start: int, run: seq<Action>, next: seq<Action>, u: string) {
    next != [] ==>
      && Quiet(cfg, start, run, Front(next), u)
      && Localize(After(cfg, start, run + Front(next)), Last(next), u).Idle?
  }

  lemma IdleKeeps(cfg: Limits, s: State, a: Action, u: string)
    requires Enabled(cfg, s, a) && Localize(s, a, u).Idle?
    ensures ViewOf(Step(cfg, s, a), u) == ViewOf(s, u)
  {
    StepLocal(cfg, s, a, u);
  }

  lemma {:induction false} QuietKeeps(cfg: Limits, start: int, run: seq<Action>, next: seq<Action>, u: string)
    requires Valid(cfg, start, run + next) && Quiet(cfg, start, run, next, u)
    ensures ViewOf(After(cfg, start, run + next), u) == ViewOf(After(cfg, start, run), u)
  {
    if next == [] {
      assert run + next == run;
    } else {
      assert Front(run + next) == run + Front(next);
      QuietKeeps(cfg, start, run, Front(next), u);
      IdleKeeps(cfg, After(cfg, start, run + Front(next)), Last(next), u);
    }
  }

  lemma {:induction false} ValidPrefix(cfg: Limits, start: int, run: seq<Action>, next: seq<Action>)
    requires Valid(cfg, start, run + next)
    ensures Valid(cfg, start, run)
  {
    if next == [] {
      assert run + next == run;
    } else {
      assert Front(run + next) == run + Front(next);
      ValidPrefix(cfg, start, run, Front(next));
    }
  }

  /** Where a late append stands: run, then a rewrite of the journal from memory, then any actions of
      other users, and the i-th outstanding append is the next one of its user. */
  ghost predicate Late(cfg: Limits, start: int, run: seq<Action>, a: Action, next: seq<Action>, i: nat) {
    && Valid(cfg, start, run + [a] + next)
    && Rewrites(After(cfg, start, run), a) && !a.Restart?
    && i < |After(cfg, start, run + [a] + next).pending|
    && Quiet(cfg, start, run + [a], next, After(cfg, start, run + [a] + next).pending[i].userKey)
  }

  lemma LateLines(cfg: Limits, start: int, run: seq<Action>, a: Action, next: seq<Action>, i: nat)
    requires Late(cfg, start, run, a, next, i)
    ensures var s := After(cfg, start, run + [a] + next); var u := s.pending[i].userKey;
            Of(s.journal, u) == Get(s.entries, u) && Of(s.pending, u) == Of(After(cfg, start, run).pending, u)
  {
    var u := After(cfg, start, run + [a] + next).pending[i].userKey;
    ValidPrefix(cfg, start, run + [a], next);
    AfterNext(cfg, start, run, a);
    RewriteExact(cfg, After(cfg, start, run), a, u);
    QuietKeeps(cfg, start, run + [a], next, u);
  }

  lemma AppendsLate(cfg: Limits, start: int, run: seq<Action>, i: nat, T: int)
    requires Valid(cfg, start, run)
    requires var s := After(cfg, start, run);
             i < |s.pending| && Of(s.journal, s.pending[i].userKey) == Get(s.entries, s.pending[i].userKey)
    ensures Valid(cfg, start, run + [Append(i)])
    ensures var e, t := After(cfg, start, run).pending[i], After(cfg, start, run + [Append(i)]);
            var restarted, kept := Get(Replayed(cfg, T, t.journal), e.userKey), Prune(cfg, T, Get(t.entries, e.userKey));
            && (restarted != kept <==> LiveAt(cfg, T)(e) && !FullOf(cfg, kept, e))
            && (LiveAt(cfg, T)(e) ==> e in restarted)
  {
    AfterNext(cfg, start, run, Append(i));
    LateEffect(cfg, After(cfg, start, run), i, T);
  }

  lemma WasOutstanding(before: seq<Entry>, now: seq<Entry>, i: nat)
    requires i < |now| && Of(now, now[i].userKey) == Of(before, now[i].userKey)
    ensures now[i] in before
  {
    FilterIn(OwnedBy(now[i].userKey), now, now[i]);
    FilterIn(OwnedBy(now[i].userKey), before, now[i]);
  }

  /** In any run, an append of e that was outstanding during a compaction or a Delete, whatever other users did
      in between: a process restarted at T on that journal returns e again, and something else than All
      returns, exactly when e is live at T (and the list is not already full of copies of e). The next rewrite
      of the journal ends it. */
  lemma LateAppend(cfg: Limits, start: int, run: seq<Action>, a: Action, next: seq<Action>, i: nat, T: int)
    requires Late(cfg, start, run, a, next, i)
    ensures Valid(cfg, start, run + [a] + next + [Append(i)])
    ensures var e := After(cfg, start, run + [a] + next).pending[i];
            var t := After(cfg, start, run + [a] + next + [Append(i)]);
            var restarted, kept := Get(Replayed(cfg, T, t.journal), e.userKey), Prune(cfg, T, Get(t.entries, e.userKey));
            && e in After(cfg, start, run).pending
            && (restarted != kept <==> LiveAt(cfg, T)(e) && !FullOf(cfg, kept, e))
            && (LiveAt(cfg, T)(e) ==> e in restarted)
  {
    LateLines(cfg, start, run, a, next, i);
    WasOutstanding(After(cfg, start, run).pending, After(cfg, start, run + [a] + next).pending, i);
    AppendsLate(cfg, start, run + [a] + next, i, T);
  }

  // ----- the race between two appends

  lemma SwapCapped(cfg: Limits, f: seq<Entry>, a: Entry, b: Entry)
    ensures Cap(cfg, f + [a] + [b]) == Cap(cfg, f + [b] + [a]) <==> a == b
  {
    assert Last(Cap(cfg, f + [a] + [b])) == b && Last(Cap(cfg, f + [b] + [a])) == a;
  }

  /** Two neighbours the other way round: pruning at T hides it exactly when one has expired, or they are
      the same. */
  lemma SwapPruned(cfg: Limits, T: int, s: seq<Entry>, a: Entry, b: Entry)
    ensures Prune(cfg, T, s + [a] + [b]) == Prune(cfg, T, s + [b] + [a]) <==>
            !(LiveAt(cfg, T)(a) && LiveAt(cfg, T)(b)) || a == b
  {
    var p := LiveAt(cfg, T);
    FilterSnoc(p, s, a);
    FilterSnoc(p, s, b);
    FilterSnoc(p, s + [a], b);
    FilterSnoc(p, s + [b], a);
    SwapCapped(cfg, Filter(p, s), a, b);
  }

  lemma SecondWaiting(p: seq<Entry>, e: Entry, f: Entry, u: string, i: nat)
    requires Of(p, u) == [e] + [f] && i < |p| && p[i].userKey == u && Of(p[..i], u) == [e]
    ensures p[i] == f && Of(RemoveAt(p, i), u) == [e]
  {
    var before, behind := p[..i], p[i + 1..];
    SplitAt(p, i);
    FilterConcat(OwnedBy(u), before + [p[i]], behind);
    FilterSnoc(OwnedBy(u), before, p[i]);
    FilterConcat(OwnedBy(u), before, behind);
    assert Of(p, u) == [e] + [p[i]] + Of(behind, u);
    assert |Of(behind, u)| == 0 && Of(p, u)[1] == p[i];
  }

  lemma OnlyWaiting(p: seq<Entry>, e: Entry, u: string, j: nat)
    requires Of(p, u) == [e] && j < |p| && p[j].userKey == u
    ensures p[j] == e
  {
    FilterIn(OwnedBy(u), p, p[j]);
  }

  lemma ReversedLines(cfg: Limits, s: State, e: Entry, f: Entry, u: string, i: nat, j: nat)
    requires Of(s.pending, u) == [e] + [f]
    requires i < |s.pending| && s.pending[i].userKey == u && Of(s.pending[..i], u) == [e]
    requires j < |s.pending| - 1 && RemoveAt(s.pending, i)[j].userKey == u
    ensures var t := Step(cfg, Step(cfg, s, Append(i)), Append(j));
            t.entries == s.entries && Of(t.journal, u) == Of(s.journal, u) + [f] + [e]
  {
    SecondWaiting(s.pending, e, f, u, i);
    OnlyWaiting(RemoveAt(s.pending, i), e, u, j);
    FilterIn(OwnedBy(u), RemoveAt(s.pending, i), e);
    FilterSnoc(OwnedBy(u), s.journal, f);
    FilterSnoc(OwnedBy(u), s.journal + [f], e);
  }

  lemma LaterLives(cfg: Limits, lines: seq<Entry>, e: Entry, f: Entry, T: int)
    requires Sorted(lines + ([e] + [f])) && LiveAt(cfg, T)(e)
    ensures LiveAt(cfg, T)(f)
  {
    var w := lines + ([e] + [f]);
    assert w[|lines|] == e && w[|lines| + 1] == f;
  }

  lemma ReversedEffect(cfg: Limits, s: State, e: Entry, f: Entry, u: string, j: seq<Entry>, log: seq<Entry>, T: int)
    requires Of(s.pending, u) == [e] + [f] && Of(j, u) == Of(s.journal, u) + [f] + [e]
    requires Agrees(cfg, ViewOf(s, u), log, T)
    ensures Get(Replayed(cfg, T, j), u) != Prune(cfg, T, Get(s.entries, u)) <==> LiveAt(cfg, T)(e) && e != f
  {
    var lines := Of(s.journal, u);
    assert lines + ([e] + [f]) == lines + [e] + [f];
    ReplayedGet(cfg, T, j, u);
    SwapPruned(cfg, T, lines, f, e);
    if LiveAt(cfg, T)(e) {
      LaterLives(cfg, lines, e, f, T);
    }
  }

  lemma AfterTwo(cfg: Limits, start: int, run: seq<Action>, i: nat, j: nat)
    requires Valid(cfg, start, run)
    ensures Valid(cfg, start, run + [Append(i)] + [Append(j)])
    ensures After(cfg, start, run + [Append(i)] + [Append(j)]) ==
            Step(cfg, Step(cfg, After(cfg, start, run), Append(i)), Append(j))
  {
    AfterNext(cfg, start, run, Append(i));
    AfterNext(cfg, start, run + [Append(i)], Append(j));
  }

  /** Two appends of u are outstanding at the end of an undisturbed run, for e and then f, and they are written
      in the opposite order: f is number i of all outstanding appends, and e number j of the others. A
      process restarted at T then returns something else than All returns, exactly when the earlier fact is
      live at T and the two are not equal. */
  lemma ReversedAppends(
    cfg: Limits, start: int, run: seq<Action>, u: string, e: Entry, f: Entry, i: nat, j: nat, T: int)
    requires Valid(cfg, start, run) && Undisturbed(cfg, start, run, u) && Sorted(SavedBy(run, u))
    requires After(cfg, start, run).now <= T
    requires var p := After(cfg, start, run).pending;
             && Of(p, u) == [e] + [f]
             && i < |p| && p[i].userKey == u && Of(p[..i], u) == [e]
             && j < |p| - 1 && RemoveAt(p, i)[j].userKey == u
    ensures Valid(cfg, start, run + [Append(i)] + [Append(j)])
    ensures var t := After(cfg, start, run + [Append(i)] + [Append(j)]);
            Get(Replayed(cfg, T, t.journal), u) != Prune(cfg, T, Get(t.entries, u)) <==> LiveAt(cfg, T)(e) && e != f
  {
    var s := After(cfg, start, run);
    AfterTwo(cfg, start, run, i, j);
    ReplayAgrees(cfg, start, run, u, T);
    ReversedLines(cfg, s, e, f, u, i, j);
    ReversedEffect(cfg, s, e, f, u, After(cfg, start, run + [Append(i)] + [Append(j)]).journal, SavedBy(run, u), T);
  }

  // ----- both happen from the start

  lemma {:induction false} AfterThree(cfg: Limits, start: int, a: Action, b: Action, c: Action)
    ensures var s := Step(cfg, After(cfg, start, []), a);
            && After(cfg, start, [a, b, c]) == Step(cfg, Step(cfg, s, b), c)
            && (Valid(cfg, start, [a, b, c]) <==>
                Enabled(cfg, After(cfg, start, []), a) && Enabled(cfg, s, b) && Enabled(cfg, Step(cfg, s, b), c))
  {
    Three(a, b, c);
    AfterNext(cfg, start, [], a);
    AfterNext(cfg, start, [] + [a], b);
    AfterNext(cfg, start, [] + [a] + [b], c);
  }

  const UNLIMITED := Limits(0, 0)

  lemma AlwaysLive(T: int, s: seq<Entry>)
    ensures Prune(UNLIMITED, T, s) == s
  {
    FilterAll(LiveAt(UNLIMITED, T), s);
  }

  lemma SaveFirst(start: int, e: Entry, at: int)
    ensures Step(UNLIMITED, After(UNLIMITED, start, []), Save(e, at)) == State(map[e.userKey := [e]], [], [e], at)
  {
    AlwaysLive(at, [e]);
    assert [] + [e] == [e];
  }

  lemma OneLine(e: Entry, u: string)
    ensures Of([e], u) == (if u == e.userKey then [e] else []) && Of([], u) == []
  {
    FilterSnoc(OwnedBy(u), [], e);
    assert [] + [e] == [e];
  }

  /** The race happens: a compaction between the two steps of a Save makes a restart return the fact
      twice, where All returns it once. */
  lemma CompactionDuplicates(start: int, e: Entry, at: int, T: int)
    requires start <= at
    ensures var run := [Save(e, at), Compact(at, [e]), Append(0)];
            var t := After(UNLIMITED, start, run);
            && Valid(UNLIMITED, start, run)
            && Prune(UNLIMITED, T, Get(t.entries, e.userKey)) == [e]
            && Get(Replayed(UNLIMITED, T, t.journal), e.userKey) == [e, e]
  {
    var a := Compact(at, [e]);
    AfterThree(UNLIMITED, start, Save(e, at), a, Append(0));
    SaveFirst(start, e, at);
    CompactFirst(e, at);
    var s := State(map[e.userKey := [e]], [], [e], at);
    RewriteExact(UNLIMITED, s, a, e.userKey);
    LateReplay(UNLIMITED, Step(UNLIMITED, s, a), 0, T);
    AlwaysLive(T, [e]);
    AlwaysLive(T, [e] + [e]);
  }

  lemma LayoutOne(e: Entry)
    ensures Layout([e], map[e.userKey := [e]])
  {
    forall u ensures Of([e], u) == Get(map[e.userKey := [e]], u) {
      OneLine(e, u);
    }
  }

  lemma CompactFirst(e: Entry, at: int)
    ensures var s, a := State(map[e.userKey := [e]], [], [e], at), Compact(at, [e]);
            Step(UNLIMITED, s, a).entries == s.entries && Enabled(UNLIMITED, s, a)
  {
    AlwaysLive(at, [e]);
    assert PrunedAll(UNLIMITED, at, map[e.userKey := [e]]) == map[e.userKey := [e]];
    LayoutOne(e);
  }

  /** And a Delete between them is undone: a restart returns the deleted fact. */
  lemma DeleteUndone(start: int, e: Entry, at: int, T: int)
    requires start <= at
    ensures var run := [Save(e, at), Delete(e.userKey, e.id, []), Append(0)];
            var t := After(UNLIMITED, start, run);
            && Valid(UNLIMITED, start, run)
            && Prune(UNLIMITED, T, Get(t.entries, e.userKey)) == []
            && Get(Replayed(UNLIMITED, T, t.journal), e.userKey) == [e]
  {
    var a := Delete(e.userKey, e.id, []);
    AfterThree(UNLIMITED, start, Save(e, at), a, Append(0));
    SaveFirst(start, e, at);
    var s := State(map[e.userKey := [e]], [], [e], at);
    DeleteOnly(s.entries, e);
    forall u ensures Of([], u) == Get(Deleted(s.entries, e.userKey, e.id), u) {
      OneLine(e, u);
    }
    RewriteExact(UNLIMITED, s, a, e.userKey);
    LateReplay(UNLIMITED, Step(UNLIMITED, s, a), 0, T);
    AlwaysLive(T, []);
    AlwaysLive(T, [] + [e]);
  }

  lemma DeleteOnly(m: Table, e: Entry)
    requires m == map[e.userKey := [e]]
    ensures Holds(m, e.userKey, e.id) && Deleted(m, e.userKey, e.id) == map[e.userKey := []]
  {
    assert Get(m, e.userKey) == [e] && Front([e]) == [] && IndexOf([e], e.id) == 0;
  }
}
