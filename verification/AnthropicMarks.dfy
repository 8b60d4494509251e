/** Which blocks of an Anthropic request are marked as cache breakpoints, and the blocks of an assistant turn. */
module AnthropicMarks {
  import opened Seqs
  import opened Anthropic

  /** All text of these blocks and tool results, one after the other. */
  function TextIn(bs: seq<Block>): string {
    if bs == [] then "" else
      var c := Last(bs).content;
      TextIn(Front(bs)) + if c.Text? then c.text else if c.ToolResult? then c.content else ""
  }

  function HistoryText(msgs: seq<WireMessage>): string {
    if msgs == [] then "" else HistoryText(Front(msgs)) + TextIn(Last(msgs).blocks)
  }

  lemma {:induction false} BlockCharsAre(bs: seq<Block>)
    ensures BlockChars(bs) == |TextIn(bs)|
  {
    if bs != [] {
      BlockCharsAre(Front(bs));
    }
  }

  lemma {:induction false} CharsAre(msgs: seq<WireMessage>)
    ensures Chars(msgs) == |HistoryText(msgs)|
  {
    if msgs != [] {
      CharsAre(Front(msgs));
      BlockCharsAre(Last(msgs).blocks);
    }
  }

  /** A text of so many characters is worth caching: 2048 tokens of four characters for Haiku, else 1024. */
  predicate LongEnough(chars: nat, haiku: bool) {
    if haiku then chars >= 8192 else chars >= 4096
  }

  lemma LongEnoughIff(chars: nat, haiku: bool)
    ensures chars / 4 >= MinCacheableTokens(haiku) <==> LongEnough(chars, haiku)
  {
  }

  /** Marking sets the mark of one block, the last one of the history prefix, exactly when there is such a prefix
      and its text is long enough; every other block keeps its own. */
  lemma MarkedIff(msgs: seq<WireMessage>, historyLen: int, haiku: bool, i: nat, b: nat)
    requires i < |msgs| && b < |msgs[i].blocks|
    ensures var r := Marked(msgs, historyLen, MinCacheableTokens(haiku));
            && |r| == |msgs| && |r[i].blocks| == |msgs[i].blocks| && r[i].role == msgs[i].role
            && r[i].blocks[b].content == msgs[i].blocks[b].content
            && (r[i].blocks[b].cached <==>
                msgs[i].blocks[b].cached ||
                (i == historyLen - 1 && b == |msgs[i].blocks| - 1 && LongEnough(|HistoryText(msgs[..i + 1])|, haiku)))
  {
    if 0 < historyLen <= |msgs| {
      CharsAre(msgs[..historyLen]);
      LongEnoughIff(Chars(msgs[..historyLen]), haiku);
    }
  }

  /** There is a system block exactly when there is a system prompt; it is that prompt, marked if long enough. */
  lemma SystemMarkedIff(system: string, haiku: bool)
    ensures var r := SystemBlock(system, MinCacheableTokens(haiku));
            && (r.Some? <==> system != "")
            && (r.Some? ==> r.value.content == Text(system) && (r.value.cached <==> LongEnough(|system|, haiku)))
  {
    LongEnoughIff(|system|, haiku);
  }

  ghost predicate Unmarked(bs: seq<Block>) {
    forall i :: 0 <= i < |bs| ==> !bs[i].cached
  }

  ghost predicate AllUnmarked(msgs: seq<WireMessage>) {
    forall i :: 0 <= i < |msgs| ==> Unmarked(msgs[i].blocks)
  }

  lemma {:induction false} UsesUnmarked(calls: seq<ToolCall>)
    ensures Unmarked(UseBlocks(calls))
  {
    if calls != [] {
      UsesUnmarked(Front(calls));
    }
  }

  lemma {:induction false} PartsUnmarked(ps: seq<Part>)
    ensures Unmarked(PartBlocks(ps))
  {
    if ps != [] {
      PartsUnmarked(Front(ps));
    }
  }

  lemma {:induction false} WalkUnmarked(ms: seq<Message>)
    ensures AllUnmarked(Walked(ms).msgs) && Unmarked(Walked(ms).pending)
  {
    if ms != [] {
      WalkUnmarked(Front(ms));
      UsesUnmarked(Last(ms).toolCalls);
      PartsUnmarked(Last(ms).parts);
    }
  }

  /** So a request holds at most the one mark that MarkedIff describes. */
  lemma NothingElseMarked(ms: seq<Message>)
    ensures AllUnmarked(Translated(ms))
  {
    WalkUnmarked(ms);
  }

  /** The blocks of an assistant turn with tool calls: its text if it has any, then one use block per call, in order. */
  lemma AssistantShape(m: Message, i: nat)
    requires m.role == "assistant" && m.toolCalls != [] && i < |m.toolCalls|
    ensures var bs, n := Blocks(m), if m.content == "" then 0 else 1;
            && |bs| == n + |m.toolCalls|
            && (m.content != "" ==> bs[0].content == Text(m.content))
            && bs[n + i].content == ToolUse(m.toolCalls[i].id, m.toolCalls[i].name, m.toolCalls[i].input)
  {
    UseBlockAt(m.toolCalls, i);
  }

  lemma {:induction false} UseBlockAt(calls: seq<ToolCall>, i: nat)
    requires i < |calls|
    ensures UseBlocks(calls)[i].content == ToolUse(calls[i].id, calls[i].name, calls[i].input)
  {
    if i < |calls| - 1 {
      UseBlockAt(Front(calls), i);
    }
  }
}
