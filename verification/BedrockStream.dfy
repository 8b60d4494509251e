/** What a client of a Bedrock stream receives, told from the messages alone: one chunk for every text delta and
    every finish, stamped with the start that came last before it, up to the message that ends the stream or
    the chunk that the callback refuses. */
module BedrockStream {
  import opened Seqs
  import opened EventStream

  // ----- messages and events

  predicate IsException(m: Message) {
    HeaderText(m, ":exception-type") != []
  }

  predicate IsChunk(m: Message) {
    HeaderText(m, ":event-type") == Ascii("chunk")
  }

  /** The message ends the stream: an exception, an event that cannot be decoded, or a stop. */
  predicate EndsStream(decode: seq<byte> -> Option<Inner>, m: Message) {
    IsException(m) || (IsChunk(m) && (decode(m.payload).None? || decode(m.payload).value.Stop?))
  }

  /** The events of the chunk messages, up to the message that ends the stream. */
  function Events(decode: seq<byte> -> Option<Inner>, ms: seq<Message>): seq<Inner> {
    if ms == [] || EndsStream(decode, ms[0]) then []
    else (if IsChunk(ms[0]) then [decode(ms[0].payload).value] else []) + Events(decode, ms[1..])
  }

  /** The first message that ends the stream, if there is one. */
  function EndOf(decode: seq<byte> -> Option<Inner>, ms: seq<Message>): Option<Message> {
    if ms == [] then None else if EndsStream(decode, ms[0]) then Some(ms[0]) else EndOf(decode, ms[1..])
  }

  // ----- the chunks they make

  /** The ID of the last start. */
  function IdAt(evs: seq<Inner>): seq<byte> {
    if evs == [] then [] else if Last(evs).Start? then Last(evs).id else IdAt(Front(evs))
  }

  /** The model that the last start with a model names; the requested one before that. */
  function ModelAt(evs: seq<Inner>, requested: seq<byte>): seq<byte> {
    if evs == [] then requested
    else if Last(evs).Start? && Last(evs).model != [] then Last(evs).model
    else ModelAt(Front(evs), requested)
  }

  /** The prompt tokens that the last start reports. */
  function PromptAt(evs: seq<Inner>): int {
    if evs == [] then 0 else if Last(evs).Start? then Last(evs).inputTokens else PromptAt(Front(evs))
  }

  function ReasonOf(reason: seq<byte>): seq<byte> {
    if reason in {Ascii("end_turn"), Ascii("stop_sequence")} then Ascii("stop")
    else if reason in {Ascii("max_tokens")} then Ascii("length")
    else if reason in {Ascii("tool_use")} then Ascii("tool_calls")
    else reason
  }

  /** One chunk for every text delta and every finish. */
  function ChunksOf(evs: seq<Inner>, requested: seq<byte>): seq<Chunk> {
    if evs == [] then [] else
      var before := Front(evs);
      ChunksOf(before, requested) +
      match Last(evs)
      case TextDelta(text) => [Text(IdAt(before), ModelAt(before, requested), text)]
      case Finish(reason, n) =>
        [Final(IdAt(before), ModelAt(before, requested), ReasonOf(reason), PromptAt(before), n, PromptAt(before) + n)]
      case _ => []
  }

  function Deltas(evs: seq<Inner>): seq<seq<byte>> {
    if evs == [] then [] else Deltas(Front(evs)) + if Last(evs).TextDelta? then [Last(evs).text] else []
  }

  function Texts(chunks: seq<Chunk>): seq<seq<byte>> {
    if chunks == [] then [] else Texts(Front(chunks)) + if Last(chunks).Text? then [Last(chunks).text] else []
  }

  lemma TextsSnoc(chunks: seq<Chunk>, c: Chunk)
    ensures Texts(chunks + [c]) == Texts(chunks) + if c.Text? then [c.text] else []
  {
    assert Front(chunks + [c]) == chunks;
  }

  /** The texts of the chunks are the texts of the deltas, in order. */
  lemma {:induction false} TextsAreDeltas(evs: seq<Inner>, requested: seq<byte>)
    ensures Texts(ChunksOf(evs, requested)) == Deltas(evs)
  {
    if evs != [] {
      TextsAreDeltas(Front(evs), requested);
      var before, made := ChunksOf(Front(evs), requested), ChunksOf(evs, requested);
      if Last(evs).TextDelta? || Last(evs).Finish? {
        TextsSnoc(before, Last(made));
        assert made == before + [Last(made)];
      } else {
        assert made == before;
      }
    }
  }

  lemma {:induction false} ChunksGrow(evs: seq<Inner>, more: seq<Inner>, requested: seq<byte>)
    ensures ChunksOf(evs, requested) <= ChunksOf(evs + more, requested)
  {
    if more == [] {
      assert evs + more == evs;
    } else {
      ChunksGrow(evs, Front(more), requested);
      assert Front(evs + more) == evs + Front(more);
    }
  }

  // ----- the loop computes them

  /** The loop stands behind these events, and every chunk was accepted so far. */
  ghost predicate Behind(accept: nat -> bool, st: Stream, evs: seq<Inner>, requested: seq<byte>) {
    && st.id == IdAt(evs) && st.model == ModelAt(evs, requested) && st.inputTok == PromptAt(evs)
    && st.chunks == ChunksOf(evs, requested) && AllAccepted(accept, |st.chunks|)
  }

  ghost predicate AllAccepted(accept: nat -> bool, n: nat) {
    forall i: nat :: i < n ==> accept(i)
  }

  lemma ReasonsAgree(reason: seq<byte>)
    ensures NormalizeStopReason(reason) == ReasonOf(reason)
  {
  }

  /** Chunk number n is refused, and none before it. */
  ghost predicate FirstRefused(accept: nat -> bool, n: nat) {
    AllAccepted(accept, n) && !accept(n)
  }

  lemma ApplyStep(accept: nat -> bool, st: Stream, evs: seq<Inner>, ev: Inner, requested: seq<byte>)
    requires Behind(accept, st, evs, requested) && !st.done && !ev.Stop?
    ensures var t := Apply(accept, st, ev);
            && t.chunks == ChunksOf(evs + [ev], requested)
            && (!t.done ==> Behind(accept, t, evs + [ev], requested))
            && (t.done ==> t.error == Some(Refused) && |t.chunks| > 0 && FirstRefused(accept, |t.chunks| - 1))
  {
    assert Front(evs + [ev]) == evs && Last(evs + [ev]) == ev;
    if ev.Finish? {
      ReasonsAgree(ev.stopReason);
    }
    var t := Apply(accept, st, ev);
    assert ChunksOf(evs + [ev], requested) == if ev.TextDelta? || ev.Finish? then t.chunks else st.chunks;
  }

  /** How the stream ends when no chunk is refused. */
  function Verdict(decode: seq<byte> -> Option<Inner>, r: Reading): Option<StreamError> {
    var end := EndOf(decode, r.messages);
    if end.None? then if r.end in {Eof, BodyEof} then None else Some(Unreadable(r.end))
    else if IsException(end.value) then Some(Exception(HeaderText(end.value, ":exception-type")))
    else if decode(end.value.payload).None? then Some(Undecodable)
    else None
  }

  /** All chunks of the events arrive, or those up to the first that is refused. */
  ghost predicate Arrives(
    decode: seq<byte> -> Option<Inner>, accept: nat -> bool, r: Reading, all: seq<Chunk>, st: Stream)
  {
    && st.done && st.chunks <= all
    && (AllAccepted(accept, |all|) ==> st.chunks == all && st.error == Verdict(decode, r))
    && (!AllAccepted(accept, |all|) ==> |st.chunks| > 0 && FirstRefused(accept, |st.chunks| - 1) && st.error == Some(Refused))
  }

  /** A refused chunk ends the stream. */
  lemma EventDelivers(
    decode: seq<byte> -> Option<Inner>, accept: nat -> bool, st: Stream, evs: seq<Inner>, ev: Inner,
    requested: seq<byte>, rest: Reading)
    requires Behind(accept, st, evs, requested) && !st.done && !ev.Stop?
    ensures var t, all := Apply(accept, st, ev), ChunksOf(evs + [ev] + Events(decode, rest.messages), requested);
            && (!t.done ==> Behind(accept, t, evs + [ev], requested))
            && (t.done ==> t.chunks <= all && |t.chunks| > 0 && FirstRefused(accept, |t.chunks| - 1) && t.error == Some(Refused)
                           && !AllAccepted(accept, |all|))
  {
    ApplyStep(accept, st, evs, ev, requested);
    ChunksGrow(evs + [ev], Events(decode, rest.messages), requested);
  }

  lemma HandledOr(decode: seq<byte> -> Option<Inner>, accept: nat -> bool, st: Stream, m: Message)
    requires !EndsStream(decode, m)
    ensures Handle(decode, accept, st, m) == if IsChunk(m) then Apply(accept, st, decode(m.payload).value) else st
    ensures IsChunk(m) ==> !decode(m.payload).value.Stop?
  {
  }

  lemma EndDelivers(
    decode: seq<byte> -> Option<Inner>, accept: nat -> bool, st: Stream, evs: seq<Inner>, requested: seq<byte>, r: Reading)
    requires Behind(accept, st, evs, requested) && !st.done
    requires r.messages == [] || EndsStream(decode, r.messages[0])
    ensures Arrives(decode, accept, r, ChunksOf(evs, requested), Dispatch(decode, accept, st, r))
  {
  }

  lemma RestArrives(
    decode: seq<byte> -> Option<Inner>, accept: nat -> bool, st: Stream, all: seq<Chunk>, r: Reading)
    requires !st.done && r.messages != [] && !EndsStream(decode, r.messages[0])
    requires var rest := Reading(r.messages[1..], r.end);
             Arrives(decode, accept, rest, all, Dispatch(decode, accept, Handle(decode, accept, st, r.messages[0]), rest))
    ensures Arrives(decode, accept, r, all, Dispatch(decode, accept, st, r))
  {
    assert EndOf(decode, r.messages) == EndOf(decode, r.messages[1..]);
  }

  lemma EventsFirst(decode: seq<byte> -> Option<Inner>, evs: seq<Inner>, ms: seq<Message>)
    requires ms != [] && !EndsStream(decode, ms[0]) && IsChunk(ms[0])
    ensures evs + Events(decode, ms) == evs + [decode(ms[0].payload).value] + Events(decode, ms[1..])
  {
    ConcatAssociates(evs, [decode(ms[0].payload).value], Events(decode, ms[1..]));
  }

  lemma RefusedArrives(
    decode: seq<byte> -> Option<Inner>, accept: nat -> bool, t: Stream, all: seq<Inner>, requested: seq<byte>, r: Reading)
    requires t.done && t.chunks <= ChunksOf(all, requested) && |t.chunks| > 0 && t.error == Some(Refused)
    requires FirstRefused(accept, |t.chunks| - 1) && !AllAccepted(accept, |ChunksOf(all, requested)|)
    ensures Arrives(decode, accept, r, ChunksOf(all, requested), Dispatch(decode, accept, t, r))
  {
  }

  lemma {:induction false} LoopDelivers(
    decode: seq<byte> -> Option<Inner>, accept: nat -> bool, st: Stream, evs: seq<Inner>, requested: seq<byte>, r: Reading)
    requires Behind(accept, st, evs, requested) && !st.done
    ensures Arrives(decode, accept, r, ChunksOf(evs + Events(decode, r.messages), requested), Dispatch(decode, accept, st, r))
    decreases |r.messages|
  {
    if r.messages == [] || EndsStream(decode, r.messages[0]) {
      assert evs + [] == evs;
      EndDelivers(decode, accept, st, evs, requested, r);
    } else {
      var m, rest := r.messages[0], Reading(r.messages[1..], r.end);
      HandledOr(decode, accept, st, m);
      if !IsChunk(m) {
        assert [] + Events(decode, rest.messages) == Events(decode, rest.messages);
        LoopDelivers(decode, accept, st, evs, requested, rest);
      } else {
        var ev := decode(m.payload).value;
        EventDelivers(decode, accept, st, evs, ev, requested, rest);
        if !Handle(decode, accept, st, m).done {
          LoopDelivers(decode, accept, Handle(decode, accept, st, m), evs + [ev], requested, rest);
        } else {
          RefusedArrives(decode, accept, Handle(decode, accept, st, m), evs + [ev] + Events(decode, rest.messages), requested, rest);
        }
        EventsFirst(decode, evs, r.messages);
      }
      RestArrives(decode, accept, st, ChunksOf(evs + Events(decode, r.messages), requested), r);
    }
  }

  /** The whole stream: with every chunk accepted, the client gets one chunk for every text delta and every finish
      that comes before the end, and the error that the end deserves; otherwise those up to the first
      chunk it refuses, and its own error. */
  lemma StreamDelivers(
    decode: seq<byte> -> Option<Inner>, accept: nat -> bool, requested: seq<byte>, r: Reading)
    ensures Arrives(decode, accept, r, ChunksOf(Events(decode, r.messages), requested),
                    Dispatch(decode, accept, Initial(requested), r))
  {
    LoopDelivers(decode, accept, Initial(requested), [], requested, r);
    assert [] + Events(decode, r.messages) == Events(decode, r.messages);
  }

  /** On the bytes of whole frames. */
  lemma FramesDelivered(
    crc: seq<byte> -> u32, decode: seq<byte> -> Option<Inner>, accept: nat -> bool, requested: seq<byte>, fs: seq<Frame>)
    requires ValidFrames(fs)
    ensures Arrives(decode, accept, Reading(DecodedAll(fs), Eof), ChunksOf(Events(decode, DecodedAll(fs)), requested),
                    Dispatch(decode, accept, Initial(requested), ReadAll(crc, EncodeAll(crc, fs))))
  {
    StreamRoundTrip(crc, fs);
    StreamDelivers(decode, accept, requested, Reading(DecodedAll(fs), Eof));
  }

  // ----- headers

  /** Numbers are 1, 2, 4 or 8 bytes wide, by type; other types are no numbers. */
  lemma WidthsAre(kind: byte)
    ensures Width(2) == 1 && Width(3) == 2 && Width(4) == 4 && Width(5) == Width(8) == 8
    ensures kind !in {2, 3, 4, 5, 8} ==> Width(kind) == 0
  {
  }

  /** A header name is present exactly when some entry has it, and its value is that of the last such entry. */
  lemma {:induction false} HeaderMapIs(hs: seq<Header>, name: seq<byte>, i: nat)
    ensures name in HeaderMap(hs) <==> exists j :: 0 <= j < |hs| && hs[j].name == name
    ensures i < |hs| && hs[i].name == name && (forall j :: i < j < |hs| ==> hs[j].name != name) ==>
              name in HeaderMap(hs) && HeaderMap(hs)[name] == hs[i].value
  {
    if hs != [] {
      HeaderMapIs(Front(hs), name, i);
      assert hs[|hs| - 1] == Last(hs) && forall j :: 0 <= j < |Front(hs)| ==> Front(hs)[j] == hs[j];
    }
  }

  /** A missing header is empty text, a string header its bytes, and a truth value the word for it. */
  lemma HeaderIs(m: Message, name: string)
    ensures Ascii(name) !in m.headers ==> HeaderText(m, name) == []
    ensures Ascii(name) in m.headers ==>
              var v := m.headers[Ascii(name)];
              && (v.Blob? ==> HeaderText(m, name) == v.bytes)
              && (v.True? ==> HeaderText(m, name) == Ascii("true")) && (v.False? ==> HeaderText(m, name) == Ascii("false"))
              && (v.Number? && v.n >= 0 ==> Decimal(HeaderText(m, name)) == v.n)
              && (v.Number? && v.n < 0 ==> HeaderText(m, name) == Ascii("-") + Digits(-v.n) && Decimal(Digits(-v.n)) == -v.n)
              && (v.Uuid? ==> IsHex(v.bytes, HeaderText(m, name)))
  {
    if Ascii(name) in m.headers {
      var v := m.headers[Ascii(name)];
      if v.Number? {
        DigitsAreDecimal(if v.n >= 0 then v.n else -v.n);
      } else if v.Uuid? {
        HexIs(v.bytes);
      }
    }
  }

  /** The number that decimal digits stand for. */
  function Decimal(s: seq<byte>): int {
    if s == [] then 0 else 10 * Decimal(Front(s)) + Last(s) as int - 48
  }

  lemma {:induction false} DigitsAreDecimal(n: nat)
    ensures Decimal(Digits(n)) == n
    ensures forall i :: 0 <= i < |Digits(n)| ==> 48 <= Digits(n)[i] <= 57
  {
    if n < 10 {
      assert Front([48 + n]) == [];
    } else {
      DigitsAreDecimal(n / 10);
      assert Front(Digits(n)) == Digits(n / 10) && Last(Digits(n)) == 48 + n % 10;
    }
  }

  /** The value of a hexadecimal digit 0-9 or a-f, and 16 for anything else. */
  function HexValue(c: byte): nat {
    if 48 <= c <= 57 then c - 48 else if 97 <= c <= 102 then c - 87 else 16
  }

  /** Two digits for every byte, the high one first. */
  ghost predicate IsHex(s: seq<byte>, r: seq<byte>) {
    |r| == 2 * |s| && forall i :: 0 <= i < |s| ==>
      HexValue(r[2 * i]) < 16 && HexValue(r[2 * i + 1]) < 16 && s[i] == 16 * HexValue(r[2 * i]) + HexValue(r[2 * i + 1])
  }

  lemma HexDigitValue(n: nat)
    requires n < 16
    ensures HexValue(HexDigit(n)) == n
  {
  }

  lemma HexSnoc(s: seq<byte>, r: seq<byte>, x: byte, high: byte, low: byte)
    requires IsHex(s, r) && HexValue(high) < 16 && HexValue(low) < 16 && x == 16 * HexValue(high) + HexValue(low)
    ensures IsHex(s + [x], r + [high, low])
  {
    forall i | 0 <= i < |s| + 1
      ensures var t := r + [high, low];
              && HexValue(t[2 * i]) < 16 && HexValue(t[2 * i + 1]) < 16
              && (s + [x])[i] == 16 * HexValue(t[2 * i]) + HexValue(t[2 * i + 1])
    {
    }
  }

  lemma {:induction false} HexIs(s: seq<byte>)
    ensures IsHex(s, Hex(s))
  {
    if s != [] {
      HexIs(Front(s));
      HexDigitValue(Last(s) / 16);
      HexDigitValue(Last(s) % 16);
      HexSnoc(Front(s), Hex(Front(s)), Last(s), HexDigit(Last(s) / 16), HexDigit(Last(s) % 16));
      FrontLast(s);
    }
  }
}
