/** What a session holds in memory and for how long, told from the run alone: a turn renews it, and it is gone
    after its time to live, when it is deleted, or when a restart finds nothing of it in the journal. */
module SessionMemory {
  import opened Seqs
  import opened Session

  /** Everything said in a session, and when it was used last. */
  datatype Memory = Memory(said: seq<Msg>, used: int)

  predicate Fresh(cfg: Config, used: int, now: int) {
    cfg.ttl <= 0 || now <= used + cfg.ttl
  }

  function Remembered(cfg: Config, run: seq<Action>, k: string): Option<Memory> {
    if run == [] then None else
      var m := Remembered(cfg, Front(run), k);
      match Last(run)
      case Append(key, user, assistant, at) =>
        if key != k then m else Some(Memory((if m.Some? then m.value.said else []) + [user, assistant], at))
      case Write(_, _) => m
      case Get(key, at) => if key == k && m.Some? && !Fresh(cfg, m.value.used, at) then None else m
      case Gc(at) => if m.Some? && !Fresh(cfg, m.value.used, at) then None else m
      case Delete(key) => if key == k then None else m
      case Restart(at, _) =>
        var t := WrittenAt(cfg, Front(run), k);
        if t.Some? && Fresh(cfg, t.value, at) then Some(Memory(Written(cfg, Front(run), k), t.value)) else None
  }

  /** r is the last n messages of s, or all of them. */
  predicate IsTail(s: seq<Msg>, n: nat, r: seq<Msg>) {
    |r| == Min(|s|, n) && r == s[|s| - |r|..]
  }

  lemma TrimIsTail(cfg: Config, s: seq<Msg>)
    ensures cfg.maxTurns > 0 ==> IsTail(s, 2 * cfg.maxTurns, Trim(cfg, s))
    ensures cfg.maxTurns <= 0 ==> Trim(cfg, s) == s
  {
  }

  /** Memory holds the session with its messages trimmed and the right expiry. */
  ghost predicate Holds(cfg: Config, m: Table, k: string, r: Option<Memory>) {
    && (k in m <==> r.Some?)
    && (k in m ==> m[k].msgs == Trim(cfg, r.value.said))
    && (k in m ==> m[k].expiresAt == if cfg.ttl > 0 then Some(r.value.used + cfg.ttl) else None)
  }

  lemma AppendHolds(cfg: Config, m: Table, k: string, user: Msg, assistant: Msg, at: int, r: Option<Memory>)
    requires Holds(cfg, m, k, r)
    ensures var said := if r.Some? then r.value.said else [];
            Holds(cfg, AppendTurn(cfg, m, k, user, assistant, at), k, Some(Memory(said + [user, assistant], at)))
  {
    var said := if r.Some? then r.value.said else [];
    TrimAbsorbs(cfg, said, [user, assistant]);
  }

  lemma RestartHolds(cfg: Config, run: seq<Action>, k: string)
    requires Valid(cfg, run) && run != [] && Last(run).Restart?
    ensures Holds(cfg, After(cfg, run).sessions, k, Remembered(cfg, run, k))
  {
    JournalFaithful(cfg, Front(run), k);
    KeysAndLines(After(cfg, Front(run)).journal, k);
  }

  lemma {:induction false} RunHolds(cfg: Config, run: seq<Action>, k: string)
    requires Valid(cfg, run)
    ensures Holds(cfg, After(cfg, run).sessions, k, Remembered(cfg, run, k))
  {
    if run != [] {
      RunHolds(cfg, Front(run), k);
      if Last(run).Restart? {
        RestartHolds(cfg, run, k);
      } else if Last(run).Append? && Last(run).key == k {
        var a := Last(run);
        AppendHolds(cfg, After(cfg, Front(run)).sessions, k, a.user, a.assistant, a.at, Remembered(cfg, Front(run), k));
      }
    }
  }

  /** After every run, a lookup of k at time t finds the session exactly when it was used, not deleted or dropped
      since, and its time to live is not over at t. It then returns the last 2 * maxTurns messages said in
      it, or all of them without that limit. */
  lemma GetReturns(cfg: Config, run: seq<Action>, k: string, t: int)
    requires Valid(cfg, run)
    ensures var r, m := Found(After(cfg, run).sessions, k, t), Remembered(cfg, run, k);
            && (r.Some? <==> m.Some? && (cfg.ttl <= 0 || t <= m.value.used + cfg.ttl))
            && (r.Some? ==> if cfg.maxTurns > 0 then IsTail(m.value.said, 2 * cfg.maxTurns, r.value) else r.value == m.value.said)
  {
    RunHolds(cfg, run, k);
    if Remembered(cfg, run, k).Some? {
      TrimIsTail(cfg, Remembered(cfg, run, k).value.said);
    }
  }

  /** When k was appended last. */
  function LastAppend(run: seq<Action>, k: string): Option<int> {
    if run == [] then None
    else if Last(run).Append? && Last(run).key == k then Some(Last(run).at)
    else LastAppend(Front(run), k)
  }

  predicate Undeleted(run: seq<Action>, k: string) {
    forall i :: 0 <= i < |run| ==> !run[i].Restart? && !(run[i].Delete? && run[i].key == k)
  }

  /** No lookup and no sweep of the run is later than t. */
  predicate Until(run: seq<Action>, t: int) {
    forall i :: 0 <= i < |run| && (run[i].Get? || run[i].Gc?) ==> run[i].at <= t
  }

  lemma {:induction false} UsedAtLastAppend(cfg: Config, run: seq<Action>, k: string, t: int)
    requires Undeleted(run, k) && Until(run, t)
    ensures var m, a := Remembered(cfg, run, k), LastAppend(run, k);
            && (m.Some? ==> a == Some(m.value.used))
            && (a.Some? && Fresh(cfg, a.value, t) ==> m.Some?)
  {
    if run != [] {
      assert run[|run| - 1] == Last(run);
      UsedAtLastAppend(cfg, Front(run), k, t);
    }
  }

  /** While k is not deleted and the process runs on, it is found at t exactly when it was appended, with no
      time to live or at most that long before. */
  lemma FoundIff(cfg: Config, run: seq<Action>, k: string, t: int)
    requires Valid(cfg, run) && Undeleted(run, k) && Until(run, t)
    ensures var a := LastAppend(run, k);
            Found(After(cfg, run).sessions, k, t).Some? <==> a.Some? && (cfg.ttl <= 0 || t <= a.value + cfg.ttl)
  {
    GetReturns(cfg, run, k, t);
    UsedAtLastAppend(cfg, run, k, t);
  }
}
