/** The request compressor: which messages it shortens, what it stores first, and what it adds to the
    request. JSON compression and comment stripping are arbitrary partial functions; the IDs of the
    retrieval store and the clock are arbitrary sequences. */
module Compressor {
  import opened Seqs
  import opened Lines
  import C = Collapse
  import R = Retrieval

  datatype Message = Message(role: string, content: string, parts: nat)
  datatype Plugin = Plugin(maxChars: nat, json: string -> Option<string>, strip: string -> Option<string>)

  const TOOL := "ixr_retrieve"

  function TruncationNote(omitted: nat): string {
    "\n... [truncated " + Decimal(omitted) + " chars]"
  }

  function RetrievalNote(id: string, omitted: nat): string {
    "\n[" + Decimal(omitted) + " more characters omitted \U{2014} call " + TOOL + " with id=\"" + id + "\" to retrieve the full content]"
  }

  function Collapsed(p: Plugin, content: string): string {
    match p.json(content)
    case Some(compact) => compact
    case None =>
      var base := match p.strip(content) case Some(stripped) => stripped case None => content;
      C.RunsCollapsed(C.BlankCollapsed(base))
  }

  /** compress: the shortened content, and how many characters were cut off its collapsed form. */
  function Omitted(p: Plugin, content: string): nat {
    if |Collapsed(p, content)| <= p.maxChars then 0 else |Collapsed(p, content)| - p.maxChars
  }

  function Shortened(p: Plugin, content: string): string {
    var c := Collapsed(p, content);
    if Omitted(p, content) == 0 then c else c[..p.maxChars] + TruncationNote(Omitted(p, content))
  }

  method CollapseContent(p: Plugin, content: string) returns (collapsed: string)
    ensures collapsed == Collapsed(p, content)
  {
    var compact := p.json(content);
    if compact.Some? {
      return compact.value;
    }
    var base := content;
    var stripped := p.strip(content);
    if stripped.Some? {
      base := stripped.value;
    }
    collapsed := C.CollapseBlankLines(base);
    collapsed := C.CollapseRepeatedLines(collapsed);
  }

  method Compress(p: Plugin, content: string) returns (result: string, omitted: nat)
    ensures result == Shortened(p, content) && omitted == Omitted(p, content)
  {
    var collapsed := CollapseContent(p, content);
    if |collapsed| <= p.maxChars {
      return collapsed, 0;
    }
    omitted := |collapsed| - p.maxChars;
    result := collapsed[..p.maxChars] + TruncationNote(omitted);
  }

  predicate Eligible(m: Message) {
    m.parts == 0 && m.role != "system" && m.content != ""
  }

  /** Index of the last user message, or -1. */
  function LiveTurn(ms: seq<Message>): (i: int)
    ensures -1 <= i < |ms|
    ensures i >= 0 ==> ms[i].role == "user"
    ensures forall j :: i < j < |ms| ==> ms[j].role != "user"
  {
    if ms == [] then -1 else if Last(ms).role == "user" then |ms| - 1 else LiveTurn(Front(ms))
  }

  method LastUserMessageIndex(ms: seq<Message>) returns (i: int)
    ensures i == LiveTurn(ms)
  {
    i := |ms| - 1;
    while i >= 0
      invariant -1 <= i < |ms|
      invariant LiveTurn(ms) == LiveTurn(ms[..i + 1])
    {
      assert Front(ms[..i + 1]) == ms[..i];
      if ms[i].role == "user" {
        return;
      }
      i := i - 1;
    }
  }

  /** Message number i may be changed at all. */
  predicate Touched(ms: seq<Message>, i: nat)
    requires i < |ms|
  {
    i != LiveTurn(ms) && Eligible(ms[i])
  }

  /** Message number i loses text, so its original goes to the store. */
  predicate Truncated(p: Plugin, reversible: bool, ms: seq<Message>, i: nat)
    requires i < |ms|
  {
    reversible && Touched(ms, i) && Omitted(p, ms[i].content) > 0
  }

  /** How many of the first n messages go to the store. */
  function Stored(p: Plugin, reversible: bool, ms: seq<Message>, n: nat): nat
    requires n <= |ms|
  {
    if n == 0 then 0 else Stored(p, reversible, ms, n - 1) + if Truncated(p, reversible, ms, n - 1) then 1 else 0
  }

  /** Message number i of the rewritten request. */
  function Rewritten(p: Plugin, reversible: bool, ids: nat -> string, ms: seq<Message>, i: nat): Message
    requires i < |ms|
  {
    var m := ms[i];
    if !Touched(ms, i) then m else
      var note := if Truncated(p, reversible, ms, i)
                  then RetrievalNote(ids(Stored(p, reversible, ms, i)), Omitted(p, m.content)) else "";
      m.(content := Shortened(p, m.content) + note)
  }

  function Entry(content: string, ttl: int, now: int): R.MemEntry {
    R.MemEntry(content, if ttl > 0 then Some(now + ttl) else None, now)
  }

  /** The store operations for the first n messages. */
  function Ops(p: Plugin, reversible: bool, ttl: int, ids: nat -> string, clock: nat -> int, ms: seq<Message>, n: nat): (r: seq<R.Op>)
    requires n <= |ms|
    ensures |r| == Stored(p, reversible, ms, n)
  {
    if n == 0 then [] else
      var ops, q := Ops(p, reversible, ttl, ids, clock, ms, n - 1), Stored(p, reversible, ms, n - 1);
      if Truncated(p, reversible, ms, n - 1) then ops + [R.Put(ids(q), Entry(ms[n - 1].content, ttl, clock(q)))] else ops
  }

  class Request {
    var messages: seq<Message>
    var tools: seq<string>
    const stream: bool

    constructor (messages: seq<Message>, tools: seq<string>, stream: bool)
      ensures this.messages == messages && this.tools == tools && this.stream == stream
    {
      this.messages, this.tools, this.stream := messages, tools, stream;
    }
  }

  lemma BehaviorSnoc(maxSize: int, ms: seq<R.Entries>, ops: seq<R.Op>, op: R.Op, m: R.Entries)
    requires R.Behavior(maxSize, ms, ops) && R.Next(maxSize, Last(ms), op, m)
    ensures R.Behavior(maxSize, ms + [m], ops + [op])
  {
    forall i | 0 <= i < |ops + [op]| ensures R.NextAt(maxSize, ms + [m], ops + [op], i) {
      if i < |ops| {
        assert R.NextAt(maxSize, ms, ops, i);
      }
    }
  }

  /** One eligible message: shorten it, and store the original first if text is lost. */
  method ShortenMessage(p: Plugin, store: R.MemoryBackend, reversible: bool, m: Message, ttl: int, id: string, now: int)
    returns (r: Message, stored: bool)
    requires "" !in store.entries && id != ""
    modifies store`entries
    ensures "" !in store.entries && stored == (reversible && Omitted(p, m.content) > 0)
    ensures r == m.(content := Shortened(p, m.content) + if stored then RetrievalNote(id, Omitted(p, m.content)) else "")
    ensures if stored then R.Next(store.maxSize, old(store.entries), R.Put(id, Entry(m.content, ttl, now)), store.entries)
            else store.entries == old(store.entries)
  {
    var result, omitted := Compress(p, m.content);
    stored := reversible && omitted > 0;
    if stored {
      store.Put(id, m.content, ttl, now);
      result := result + RetrievalNote(id, omitted);
    }
    assert Shortened(p, m.content) + "" == Shortened(p, m.content);
    r := m.(content := result);
  }

  /** The first i messages are rewritten, the others are as they were. */
  ghost predicate RewrittenTo(p: Plugin, reversible: bool, ids: nat -> string, ms: seq<Message>, rs: seq<Message>, i: nat) {
    |rs| == |ms| && forall j :: 0 <= j < |ms| ==> rs[j] == if j < i then Rewritten(p, reversible, ids, ms, j) else ms[j]
  }

  lemma RewriteNext(p: Plugin, reversible: bool, ids: nat -> string, ms: seq<Message>, rs: seq<Message>, i: nat, m: Message)
    requires RewrittenTo(p, reversible, ids, ms, rs, i) && i < |ms| && m == Rewritten(p, reversible, ids, ms, i)
    ensures RewrittenTo(p, reversible, ids, ms, rs[i := m], i + 1) && rs[i] == ms[i]
  {
  }

  /** What Intercept works on. */
  datatype Job = Job(
    p: Plugin, reversible: bool, ttl: int, ids: nat -> string, clock: nat -> int, ms: seq<Message>, maxSize: int,
    start: R.Entries)

  /** For the first i messages the store has gone through `states`, and now holds `entries`. */
  ghost predicate StoredTo(job: Job, states: seq<R.Entries>, entries: R.Entries, i: nat) {
    && i <= |job.ms|
    && R.Behavior(job.maxSize, states, Ops(job.p, job.reversible, job.ttl, job.ids, job.clock, job.ms, i))
    && states[0] == job.start && Last(states) == entries
  }

  lemma StoreNext(job: Job, states: seq<R.Entries>, before: R.Entries, i: nat, entries: R.Entries)
    requires StoredTo(job, states, before, i) && i < |job.ms| && Truncated(job.p, job.reversible, job.ms, i)
    requires var q := Stored(job.p, job.reversible, job.ms, i);
             R.Next(job.maxSize, before, R.Put(job.ids(q), Entry(job.ms[i].content, job.ttl, job.clock(q))), entries)
    ensures StoredTo(job, states + [entries], entries, i + 1)
  {
    var q := Stored(job.p, job.reversible, job.ms, i);
    BehaviorSnoc(job.maxSize, states, Ops(job.p, job.reversible, job.ttl, job.ids, job.clock, job.ms, i),
                 R.Put(job.ids(q), Entry(job.ms[i].content, job.ttl, job.clock(q))), entries);
  }

  lemma StoreSkips(job: Job, states: seq<R.Entries>, entries: R.Entries, i: nat)
    requires StoredTo(job, states, entries, i) && i < |job.ms| && !Truncated(job.p, job.reversible, job.ms, i)
    ensures StoredTo(job, states, entries, i + 1)
    ensures Stored(job.p, job.reversible, job.ms, i + 1) == Stored(job.p, job.reversible, job.ms, i)
  {
  }

  /** The loop over the messages. */
  method RewriteMessages(
    p: Plugin, reversible: bool, ms: seq<Message>, store: R.MemoryBackend, ttl: int, ids: nat -> string, clock: nat -> int)
    returns (rs: seq<Message>, puts: nat, ghost states: seq<R.Entries>)
    requires "" !in store.entries && forall q: nat :: ids(q) != ""
    modifies store`entries
    ensures RewrittenTo(p, reversible, ids, ms, rs, |ms|) && puts == Stored(p, reversible, ms, |ms|)
    ensures StoredTo(Job(p, reversible, ttl, ids, clock, ms, store.maxSize, old(store.entries)), states, store.entries, |ms|)
  {
    ghost var job := Job(p, reversible, ttl, ids, clock, ms, store.maxSize, store.entries);
    var liveTurn := LastUserMessageIndex(ms);
    rs, puts, states := ms, 0, [store.entries];
    for i := 0 to |ms|
      invariant RewrittenTo(p, reversible, ids, ms, rs, i) && puts == Stored(p, reversible, ms, i)
      invariant StoredTo(job, states, store.entries, i) && "" !in store.entries
    {
      RewriteNext(p, reversible, ids, ms, rs, i, Rewritten(p, reversible, ids, ms, i));
      if i == liveTurn || !Eligible(ms[i]) {
        StoreSkips(job, states, store.entries, i);
        assert rs[i := ms[i]] == rs;
        continue;
      }
      ghost var before := store.entries;
      var m, stored := ShortenMessage(p, store, reversible, ms[i], ttl, ids(puts), clock(puts));
      rs := rs[i := m];
      if stored {
        StoreNext(job, states, before, i, store.entries);
        states, puts := states + [store.entries], puts + 1;
      } else {
        StoreSkips(job, states, store.entries, i);
      }
    }
  }

  /** Rewrites the request in place. The store sees one Put for every truncated message, in order;
      the retrieval tool is added once if there is any. */
  method Intercept(p: Plugin, req: Request, store: R.MemoryBackend, useStore: bool, ttl: int, ids: nat -> string, clock: nat -> int)
    returns (ghost states: seq<R.Entries>)
    requires "" !in store.entries && forall q: nat :: ids(q) != ""
    modifies req, store`entries
    ensures var ms, rev := old(req.messages), useStore && !req.stream;
            && RewrittenTo(p, rev, ids, ms, req.messages, |ms|)
            && req.tools == (if Stored(p, rev, ms, |ms|) > 0 then old(req.tools) + [TOOL] else old(req.tools))
            && StoredTo(Job(p, rev, ttl, ids, clock, ms, store.maxSize, old(store.entries)), states, store.entries, |ms|)
  {
    var rs, puts;
    rs, puts, states := RewriteMessages(p, useStore && !req.stream, req.messages, store, ttl, ids, clock);
    req.messages := rs;
    if puts > 0 {
      req.tools := req.tools + [TOOL];
    }
  }

  // ----- what this promises

  /** System messages, multimodal messages and the caller's live turn are never changed, and no message
      changes its role. */
  lemma Untouched(p: Plugin, reversible: bool, ids: nat -> string, ms: seq<Message>, i: nat)
    requires i < |ms|
    ensures Rewritten(p, reversible, ids, ms, i).role == ms[i].role
    ensures ms[i].role == "system" || ms[i].parts > 0 || i == LiveTurn(ms) ==> Rewritten(p, reversible, ids, ms, i) == ms[i]
  {
  }

  /** Fresh IDs and a strictly increasing clock, later than what the store already holds. */
  ghost predicate Fresh(m: R.Entries, ids: nat -> string, clock: nat -> int) {
    && (forall q: nat, r: nat :: q < r ==> ids(q) != ids(r) && clock(q) < clock(r))
    && (forall q: nat, k :: k in m ==> k != ids(q) && m[k].insertedAt < clock(q))
  }

  lemma {:induction false} OpAt(
    p: Plugin, reversible: bool, ttl: int, ids: nat -> string, clock: nat -> int, ms: seq<Message>, n: nat, i: nat)
    requires i < n <= |ms| && Truncated(p, reversible, ms, i)
    ensures var q := Stored(p, reversible, ms, i);
            q < Stored(p, reversible, ms, n) &&
            Ops(p, reversible, ttl, ids, clock, ms, n)[q] == R.Put(ids(q), Entry(ms[i].content, ttl, clock(q)))
  {
    if i < n - 1 {
      OpAt(p, reversible, ttl, ids, clock, ms, n - 1, i);
    }
  }

  lemma {:induction false} OpsShape(
    p: Plugin, reversible: bool, ttl: int, ids: nat -> string, clock: nat -> int, ms: seq<Message>, n: nat, q: nat)
    requires n <= |ms| && q < Stored(p, reversible, ms, n)
    ensures var op := Ops(p, reversible, ttl, ids, clock, ms, n)[q];
            op.Put? && op.id == ids(q) && op.e.insertedAt == clock(q)
  {
    if q < Stored(p, reversible, ms, n - 1) {
      OpsShape(p, reversible, ttl, ids, clock, ms, n - 1, q);
    }
  }

  lemma OpsFresh(
    p: Plugin, reversible: bool, ttl: int, ids: nat -> string, clock: nat -> int, ms: seq<Message>, n: nat, m: R.Entries)
    requires n <= |ms| && Fresh(m, ids, clock)
    ensures R.FreshPuts(m, Ops(p, reversible, ttl, ids, clock, ms, n)) && R.OnlyPuts(Ops(p, reversible, ttl, ids, clock, ms, n))
  {
    var ops := Ops(p, reversible, ttl, ids, clock, ms, n);
    forall q | 0 <= q < |ops| ensures ops[q].Put? && ops[q].id == ids(q) && ops[q].e.insertedAt == clock(q) {
      OpsShape(p, reversible, ttl, ids, clock, ms, n, q);
    }
  }

  /** Reversible compression loses nothing: if the truncated messages of a request fit the store, each
      of them carries an ID under which Get returns its exact original, from when Intercept returns
      exactly until it expires. */
  lemma TruncationReversible(
    p: Plugin, ttl: int, ids: nat -> string, clock: nat -> int, ms: seq<Message>,
    maxSize: int, states: seq<R.Entries>, i: nat, at: int)
    requires i < |ms| && Truncated(p, true, ms, i)
    requires R.Behavior(maxSize, states, Ops(p, true, ttl, ids, clock, ms, |ms|)) && Fresh(states[0], ids, clock)
    requires maxSize <= 0 || Stored(p, true, ms, |ms|) <= maxSize
    ensures var q := Stored(p, true, ms, i);
            && Rewritten(p, true, ids, ms, i).content ==
               Shortened(p, ms[i].content) + RetrievalNote(ids(q), Omitted(p, ms[i].content))
            && R.Fetched(Last(states), ids(q), at) == if ttl <= 0 || at <= clock(q) + ttl then Some(ms[i].content) else None
  {
    var ops, q := Ops(p, true, ttl, ids, clock, ms, |ms|), Stored(p, true, ms, i);
    OpAt(p, true, ttl, ids, clock, ms, |ms|, i);
    OpsFresh(p, true, ttl, ids, clock, ms, |ms|, states[0]);
    R.FittingPutsKept(maxSize, states, ops, q);
  }
}
