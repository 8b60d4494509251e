/** Translation of a conversation to the Anthropic Messages API: tool results are coalesced into user
    messages, system messages are lifted out, and one block may be marked as a cache breakpoint. The
    arguments of a tool call are represented by the JSON value they decode to. */
module Anthropic {
  import opened Seqs

  datatype ToolCall = ToolCall(id: string, kind: string, name: string, input: string)
  datatype ImageURL = ImageURL(url: string, detail: string)
  datatype Part = Part(kind: string, text: string, image: Option<ImageURL>)
  datatype Message = Message(
    role: string, content: string, toolCallID: string, toolCalls: seq<ToolCall>, parts: seq<Part>, name: string)

  datatype Content =
    | Text(text: string)
    | ToolUse(id: string, name: string, input: string)
    | ToolResult(toolUseID: string, content: string)
    | Image(url: string)

  datatype Block = Block(content: Content, cached: bool)
  datatype WireMessage = WireMessage(role: string, blocks: seq<Block>)

  function Fresh(c: Content): Block {
    Block(c, false)
  }

  // ----- one message

  function UseBlocks(calls: seq<ToolCall>): (r: seq<Block>)
    ensures |r| == |calls|
    ensures forall i :: 0 <= i < |r| ==> r[i].content.ToolUse?
  {
    if calls == [] then []
    else UseBlocks(Front(calls)) + [Fresh(ToolUse(Last(calls).id, Last(calls).name, Last(calls).input))]
  }

  function TextBlocks(text: string): seq<Block> {
    if text != "" then [Fresh(Text(text))] else []
  }

  function PartBlocks(ps: seq<Part>): (r: seq<Block>)
    ensures forall i :: 0 <= i < |r| ==> r[i].content.Text? || r[i].content.Image?
  {
    if ps == [] then [] else
      var front, p := PartBlocks(Front(ps)), Last(ps);
      if p.kind == "text" then front + [Fresh(Text(p.text))]
      else if p.kind == "image_url" && p.image.Some? then front + [Fresh(Image(p.image.value.url))]
      else front
  }

  /** The blocks of a message that is neither a tool result nor a system message. */
  function Blocks(m: Message): (r: seq<Block>)
    ensures forall i :: 0 <= i < |r| ==> !r[i].content.ToolResult?
  {
    if m.role == "assistant" && m.toolCalls != [] then
      TextBlocks(m.content) + UseBlocks(m.toolCalls)
    else if m.parts == [] then [Fresh(Text(m.content))]
    else PartBlocks(m.parts)
  }

  function Contents(bs: seq<Block>): (r: seq<Content>)
    ensures |r| == |bs| && forall i :: 0 <= i < |bs| ==> r[i] == bs[i].content
  {
    if bs == [] then [] else Contents(Front(bs)) + [Last(bs).content]
  }

  method AssistantBlocks(m: Message) returns (blocks: seq<Block>)
    requires m.role == "assistant" && m.toolCalls != []
    ensures blocks == Blocks(m)
  {
    blocks := if m.content != "" then [Fresh(Text(m.content))] else [];
    ghost var text := blocks;
    for i := 0 to |m.toolCalls|
      invariant blocks == text + UseBlocks(m.toolCalls[..i])
    {
      var tc := m.toolCalls[i];
      assert Front(m.toolCalls[..i + 1]) == m.toolCalls[..i];
      blocks := blocks + [Fresh(ToolUse(tc.id, tc.name, tc.input))];
    }
    assert m.toolCalls[..|m.toolCalls|] == m.toolCalls;
  }

  method ToWireContentBlocks(m: Message) returns (blocks: seq<Block>)
    requires !(m.role == "assistant" && m.toolCalls != [])
    ensures blocks == Blocks(m)
  {
    if |m.parts| == 0 {
      return [Fresh(Text(m.content))];
    }
    blocks := [];
    for i := 0 to |m.parts|
      invariant blocks == PartBlocks(m.parts[..i])
    {
      assert Front(m.parts[..i + 1]) == m.parts[..i];
      var p := m.parts[i];
      if p.kind == "text" {
        blocks := blocks + [Fresh(Text(p.text))];
      } else if p.kind == "image_url" {
        if p.image.Some? {
          blocks := blocks + [Fresh(Image(p.image.value.url))];
        }
      }
    }
    assert m.parts[..|m.parts|] == m.parts;
  }

  // ----- reading a response back

  function TextOf(cs: seq<Content>): string {
    if cs == [] then "" else if Last(cs).Text? then TextOf(Front(cs)) + Last(cs).text else TextOf(Front(cs))
  }

  function CallsOf(cs: seq<Content>): seq<ToolCall> {
    if cs == [] then []
    else if Last(cs).ToolUse? then CallsOf(Front(cs)) + [ToolCall(Last(cs).id, "function", Last(cs).name, Last(cs).input)]
    else CallsOf(Front(cs))
  }

  method SplitContent(cs: seq<Content>) returns (text: string, calls: seq<ToolCall>)
    ensures text == TextOf(cs) && calls == CallsOf(cs)
  {
    text, calls := "", [];
    for i := 0 to |cs|
      invariant text == TextOf(cs[..i]) && calls == CallsOf(cs[..i])
    {
      assert Front(cs[..i + 1]) == cs[..i];
      match cs[i]
      case Text(t) => text := text + t;
      case ToolUse(id, name, input) => calls := calls + [ToolCall(id, "function", name, input)];
      case _ =>
    }
    assert cs[..|cs|] == cs;
  }

  /** Every call is read back as the call of a function. */
  function KeptCalls(calls: seq<ToolCall>): (r: seq<ToolCall>)
    ensures |r| == |calls|
  {
    if calls == [] then [] else KeptCalls(Front(calls)) + [Last(calls).(kind := "function")]
  }

  lemma {:induction false} KeptCallsIff(calls: seq<ToolCall>)
    ensures KeptCalls(calls) == calls <==> forall i :: 0 <= i < |calls| ==> calls[i].kind == "function"
  {
    if calls != [] {
      KeptCallsIff(Front(calls));
      FrontLast(calls);
      SnocEqual(KeptCalls(Front(calls)), Last(calls).(kind := "function"), Front(calls), Last(calls));
      assert forall i :: 0 <= i < |Front(calls)| ==> Front(calls)[i] == calls[i];
    }
  }

  lemma SnocEqual<T>(a: seq<T>, x: T, b: seq<T>, y: T)
    requires |a| == |b|
    ensures a + [x] == b + [y] <==> a == b && x == y
  {
    if a + [x] == b + [y] {
      assert a == (a + [x])[..|a|] && b == (b + [y])[..|b|] && x == (a + [x])[|a|] && y == (b + [y])[|b|];
    }
  }

  lemma ContentsConcat(a: seq<Block>, b: seq<Block>)
    ensures Contents(a + b) == Contents(a) + Contents(b)
  {
  }

  lemma {:induction false} SplitUses(prefix: seq<Content>, calls: seq<ToolCall>)
    ensures TextOf(prefix + Contents(UseBlocks(calls))) == TextOf(prefix)
    ensures CallsOf(prefix + Contents(UseBlocks(calls))) == CallsOf(prefix) + KeptCalls(calls)
  {
    if calls == [] {
      assert prefix + Contents(UseBlocks(calls)) == prefix;
    } else {
      var c := Last(calls);
      var last := ToolUse(c.id, c.name, c.input);
      SplitUses(prefix, Front(calls));
      assert Front(UseBlocks(calls)) == UseBlocks(Front(calls));
      assert prefix + Contents(UseBlocks(calls)) == prefix + Contents(UseBlocks(Front(calls))) + [last];
      assert Front(prefix + Contents(UseBlocks(calls))) == prefix + Contents(UseBlocks(Front(calls)));
    }
  }

  lemma SplitTextThenUses(text: seq<Block>, calls: seq<ToolCall>)
    ensures TextOf(Contents(text + UseBlocks(calls))) == TextOf(Contents(text))
    ensures CallsOf(Contents(text + UseBlocks(calls))) == CallsOf(Contents(text)) + KeptCalls(calls)
  {
    ContentsConcat(text, UseBlocks(calls));
    SplitUses(Contents(text), calls);
  }

  lemma SplitText(text: string)
    ensures TextOf(Contents(TextBlocks(text))) == text && CallsOf(Contents(TextBlocks(text))) == []
  {
  }

  /** An assistant turn sent out and split again is the text and the calls it held, as calls of functions,
      unless parts replaced its text. */
  lemma SplitUndoesAssistant(m: Message)
    requires m.role == "assistant" && (m.toolCalls != [] || m.parts == [])
    ensures TextOf(Contents(Blocks(m))) == m.content && CallsOf(Contents(Blocks(m))) == KeptCalls(m.toolCalls)
  {
    SplitText(m.content);
    SplitTextThenUses(TextBlocks(m.content), m.toolCalls);
  }

  // ----- the translation loop

  datatype Walk = Walk(msgs: seq<WireMessage>, pending: seq<Block>, system: string)

  function Flush(w: Walk): Walk {
    if w.pending == [] then w else w.(msgs := w.msgs + [WireMessage("user", w.pending)], pending := [])
  }

  function Visit(w: Walk, m: Message): Walk {
    if m.role == "tool" then w.(pending := w.pending + [Fresh(ToolResult(m.toolCallID, m.content))])
    else
      var f := Flush(w);
      if m.role == "system" then f.(system := if f.system != "" then f.system + "\n\n" + m.content else m.content)
      else f.(msgs := f.msgs + [WireMessage(m.role, Blocks(m))])
  }

  function Walked(ms: seq<Message>): Walk {
    if ms == [] then Walk([], [], "") else Visit(Walked(Front(ms)), Last(ms))
  }

  function Translated(ms: seq<Message>): seq<WireMessage> {
    Flush(Walked(ms)).msgs
  }

  /** Characters counted for the history prefix. */
  function BlockChars(bs: seq<Block>): nat {
    if bs == [] then 0 else
      BlockChars(Front(bs)) + match Last(bs).content
                              case Text(t) => |t|
                              case ToolResult(_, c) => |c|
                              case _ => 0
  }

  function Chars(msgs: seq<WireMessage>): nat {
    if msgs == [] then 0 else Chars(Front(msgs)) + BlockChars(Last(msgs).blocks)
  }

  /** markHistoryCacheBreakpoint: the last block of the history prefix, if that is long enough. */
  function Marked(msgs: seq<WireMessage>, historyLen: int, minTokens: nat): seq<WireMessage> {
    if historyLen <= 0 || historyLen > |msgs| || Chars(msgs[..historyLen]) / 4 < minTokens then msgs
    else
      var m := msgs[historyLen - 1];
      if m.blocks == [] then msgs
      else msgs[historyLen - 1 := m.(blocks := m.blocks[|m.blocks| - 1 := Last(m.blocks).(cached := true)])]
  }

  function MinCacheableTokens(haiku: bool): nat {
    if haiku then 2048 else 1024
  }

  /** The system prompt as one block, marked when it is long enough. */
  function SystemBlock(system: string, minTokens: nat): Option<Block> {
    if system == "" then None else Some(Block(Text(system), |system| / 4 >= minTokens))
  }

  method ToWireRequest(ms: seq<Message>, historyLen: int, haiku: bool)
    returns (wire: array<WireMessage>, system: Option<Block>)
    ensures wire[..] == Marked(Translated(ms), historyLen, MinCacheableTokens(haiku))
    ensures system == SystemBlock(Walked(ms).system, MinCacheableTokens(haiku))
  {
    var msgs, text := TranslateMessages(ms);
    wire := new WireMessage[|msgs|](i requires 0 <= i < |msgs| => msgs[i]);
    assert wire[..] == msgs;
    MarkHistoryCacheBreakpoint(wire, historyLen, haiku);
    system := None;
    if text != "" {
      system := Some(Block(Text(text), |text| / 4 >= MinCacheableTokens(haiku)));
    }
  }

  method TranslateMessages(ms: seq<Message>) returns (msgs: seq<WireMessage>, system: string)
    ensures msgs == Translated(ms) && system == Walked(ms).system
  {
    var pending: seq<Block> := [];
    msgs, system := [], "";
    for i := 0 to |ms|
      invariant Walk(msgs, pending, system) == Walked(ms[..i])
    {
      var m := ms[i];
      assert Front(ms[..i + 1]) == ms[..i];
      if m.role == "tool" {
        pending := pending + [Fresh(ToolResult(m.toolCallID, m.content))];
        continue;
      }
      if |pending| > 0 {
        msgs, pending := msgs + [WireMessage("user", pending)], [];
      }
      if m.role == "system" {
        if system != "" {
          system := system + "\n\n" + m.content;
        } else {
          system := m.content;
        }
        continue;
      }
      var blocks;
      if m.role == "assistant" && |m.toolCalls| > 0 {
        blocks := AssistantBlocks(m);
      } else {
        blocks := ToWireContentBlocks(m);
      }
      msgs := msgs + [WireMessage(m.role, blocks)];
    }
    assert ms[..|ms|] == ms;
    if |pending| > 0 {
      msgs := msgs + [WireMessage("user", pending)];
    }
  }

  method MarkHistoryCacheBreakpoint(msgs: array<WireMessage>, historyLen: int, haiku: bool)
    modifies msgs
    ensures msgs[..] == Marked(old(msgs[..]), historyLen, MinCacheableTokens(haiku))
  {
    if historyLen <= 0 || historyLen > msgs.Length {
      return;
    }
    var totalChars := 0;
    for i := 0 to historyLen
      invariant msgs[..] == old(msgs[..])
      invariant totalChars == Chars(msgs[..i])
    {
      assert Front(msgs[..i + 1]) == msgs[..i];
      totalChars := totalChars + BlockChars(msgs[i].blocks);
    }
    assert msgs[..historyLen] == msgs[..][..historyLen];
    if totalChars / 4 < MinCacheableTokens(haiku) {
      return;
    }
    var m := msgs[historyLen - 1];
    if m.blocks == [] {
      return;
    }
    var blocks := m.blocks[|m.blocks| - 1 := Last(m.blocks).(cached := true)];
    msgs[historyLen - 1] := m.(blocks := blocks);
  }

  // ----- what survives of a message

  predicate IsPlain(m: Message) {
    m.role != "tool" && m.role != "system"
  }

  predicate IsSupported(p: Part) {
    p.kind == "text" || (p.kind == "image_url" && p.image.Some?)
  }

  function KeptPart(p: Part): Part
    requires IsSupported(p)
  {
    if p.kind == "text" then Part("text", p.text, None) else Part("image_url", "", Some(ImageURL(p.image.value.url, "")))
  }

  function KeptParts(ps: seq<Part>): (r: seq<Part>)
    ensures |r| <= |ps|
  {
    if ps == [] then []
    else if IsSupported(Last(ps)) then KeptParts(Front(ps)) + [KeptPart(Last(ps))]
    else KeptParts(Front(ps))
  }

  /** A multimodal message that has only one text part left is a text message. */
  function OfParts(role: string, ps: seq<Part>): Message {
    if |ps| == 1 && ps[0].kind == "text" then Message(role, ps[0].text, "", [], [], "") else Message(role, "", "", [], ps, "")
  }

  /** What the translation keeps of a message that is not a system message. */
  function Kept(m: Message): Message {
    if m.role == "tool" then Message("tool", m.content, m.toolCallID, [], [], "")
    else if m.role == "assistant" && m.toolCalls != [] then Message(m.role, m.content, "", KeptCalls(m.toolCalls), [], "")
    else if m.parts == [] then Message(m.role, m.content, "", [], [], "")
    else OfParts(m.role, KeptParts(m.parts))
  }

  /** A part that loses nothing: a text without an image, or an image without text and detail. */
  predicate LosslessPart(p: Part) {
    (p.kind == "text" && p.image.None?) ||
    (p.kind == "image_url" && p.text == "" && p.image.Some? && p.image.value.detail == "")
  }

  /** A message that loses nothing: it has no name and no field that its role and shape do not use, its
      calls are calls of functions, and if it has parts, none loses anything and they are not a single
      text. */
  ghost predicate Lossless(m: Message) {
    && m.name == ""
    && if m.role == "tool" then m.toolCalls == [] && m.parts == []
       else if m.role == "assistant" && m.toolCalls != [] then
         m.toolCallID == "" && m.parts == [] && forall i :: 0 <= i < |m.toolCalls| ==> m.toolCalls[i].kind == "function"
       else
         && m.toolCallID == "" && m.toolCalls == []
         && (m.parts == [] ||
             (m.content == "" && !(|m.parts| == 1 && m.parts[0].kind == "text")
              && forall i :: 0 <= i < |m.parts| ==> LosslessPart(m.parts[i])))
  }

  lemma {:induction false} KeptPartsIff(ps: seq<Part>)
    ensures KeptParts(ps) == ps <==> forall i :: 0 <= i < |ps| ==> LosslessPart(ps[i])
  {
    if ps != [] {
      KeptPartsIff(Front(ps));
      FrontLast(ps);
      assert ps[|ps| - 1] == Last(ps);
      assert forall i :: 0 <= i < |Front(ps)| ==> Front(ps)[i] == ps[i];
      if IsSupported(Last(ps)) && |KeptParts(Front(ps))| == |Front(ps)| {
        SnocEqual(KeptParts(Front(ps)), KeptPart(Last(ps)), Front(ps), Last(ps));
      }
    }
  }

  /** Exactly which messages are kept whole. */
  lemma KeptIff(m: Message)
    ensures Kept(m) == m <==> Lossless(m)
  {
    KeptPartsIff(m.parts);
    KeptCallsIff(m.toolCalls);
  }

  // ----- reading the wire back

  predicate IsResults(m: WireMessage) {
    m.blocks != [] && m.blocks[0].content.ToolResult?
  }

  /** One tool message per result. */
  function Results(bs: seq<Block>): seq<Message> {
    if bs == [] then []
    else if Last(bs).content.ToolResult?
    then Results(Front(bs)) + [Message("tool", Last(bs).content.content, Last(bs).content.toolUseID, [], [], "")]
    else Results(Front(bs))
  }

  function PartsOf(cs: seq<Content>): seq<Part> {
    if cs == [] then [] else
      match Last(cs)
      case Text(t) => PartsOf(Front(cs)) + [Part("text", t, None)]
      case Image(url) => PartsOf(Front(cs)) + [Part("image_url", "", Some(ImageURL(url, "")))]
      case _ => PartsOf(Front(cs))
  }

  /** A message of calls, of parts, or of text. */
  function ReadPlain(role: string, cs: seq<Content>): Message {
    if CallsOf(cs) != [] then Message(role, TextOf(cs), "", CallsOf(cs), [], "") else OfParts(role, PartsOf(cs))
  }

  /** Reading a wire conversation back: a message of tool results stands for one tool message each. */
  function Expanded(msgs: seq<WireMessage>): seq<Message> {
    if msgs == [] then [] else
      var front, m := Expanded(Front(msgs)), Last(msgs);
      if IsResults(m) then front + Results(m.blocks) else front + [ReadPlain(m.role, Contents(m.blocks))]
  }

  lemma {:induction false} ReadParts(ps: seq<Part>)
    ensures CallsOf(Contents(PartBlocks(ps))) == [] && PartsOf(Contents(PartBlocks(ps))) == KeptParts(ps)
  {
    if ps != [] {
      ReadParts(Front(ps));
      if IsSupported(Last(ps)) {
        var bs, b := PartBlocks(Front(ps)), Last(PartBlocks(ps));
        assert PartBlocks(ps) == bs + [b];
        ContentsSnoc(bs, b);
      }
    }
  }

  lemma ContentsSnoc(bs: seq<Block>, b: Block)
    ensures Contents(bs + [b]) == Contents(bs) + [b.content] && Front(Contents(bs + [b])) == Contents(bs)
  {
    assert Front(bs + [b]) == bs;
  }

  lemma ReadText(t: string)
    ensures var cs := Contents([Fresh(Text(t))]); CallsOf(cs) == [] && PartsOf(cs) == [Part("text", t, None)]
  {
    var cs := Contents([Fresh(Text(t))]);
    assert cs == [Text(t)] && Front(cs) == [];
  }

  /** What is read of a plain message is what was kept of it. */
  lemma PlainReads(m: Message)
    requires IsPlain(m)
    ensures ReadPlain(m.role, Contents(Blocks(m))) == Kept(m)
  {
    if m.role == "assistant" && m.toolCalls != [] {
      SplitUndoesAssistant(m);
    } else if m.parts == [] {
      ReadText(m.content);
    } else {
      ReadParts(m.parts);
    }
  }

  // ----- the conversation is preserved

  /** The original conversation without its system messages. */
  function Conversation(ms: seq<Message>): seq<Message> {
    Filter((m: Message) => m.role != "system", ms)
  }

  function KeptAll(ms: seq<Message>): (r: seq<Message>)
    ensures |r| == |ms|
  {
    if ms == [] then [] else KeptAll(Front(ms)) + [Kept(Last(ms))]
  }

  lemma {:induction false} KeptAllAt(ms: seq<Message>, i: nat)
    requires i < |ms|
    ensures KeptAll(ms)[i] == Kept(ms[i])
  {
    if i < |ms| - 1 {
      KeptAllAt(Front(ms), i);
    }
  }

  lemma KeptAllSnoc(ms: seq<Message>, m: Message)
    ensures KeptAll(ms + [m]) == KeptAll(ms) + [Kept(m)]
  {
    assert Front(ms + [m]) == ms;
  }

  lemma ConversationNext(ms: seq<Message>)
    requires ms != []
    ensures Conversation(ms) == if Last(ms).role == "system" then Conversation(Front(ms)) else Conversation(Front(ms)) + [Last(ms)]
  {
  }

  ghost predicate AllResults(bs: seq<Block>) {
    forall i :: 0 <= i < |bs| ==> bs[i].content.ToolResult?
  }

  lemma ExpandedSnoc(msgs: seq<WireMessage>, m: WireMessage)
    ensures Expanded(msgs + [m]) ==
            Expanded(msgs) + if IsResults(m) then Results(m.blocks) else [ReadPlain(m.role, Contents(m.blocks))]
  {
    assert Front(msgs + [m]) == msgs;
  }

  lemma ResultsSnoc(bs: seq<Block>, b: Block)
    requires b.content.ToolResult?
    ensures Results(bs + [b]) == Results(bs) + [Message("tool", b.content.content, b.content.toolUseID, [], [], "")]
  {
    assert Front(bs + [b]) == bs;
  }

  /** What a walk has seen so far: the messages it wrote, then the results it holds back. */
  function Heard(w: Walk): seq<Message> {
    Expanded(w.msgs) + Results(w.pending)
  }

  lemma FlushHeard(w: Walk)
    requires AllResults(w.pending)
    ensures Heard(Flush(w)) == Heard(w) == Expanded(Flush(w).msgs) && Flush(w).pending == []
  {
    if w.pending != [] {
      ExpandedSnoc(w.msgs, WireMessage("user", w.pending));
    }
    assert Expanded(Flush(w).msgs) + [] == Expanded(Flush(w).msgs);
  }

  lemma VisitTool(w: Walk, m: Message)
    requires AllResults(w.pending) && m.role == "tool"
    ensures AllResults(Visit(w, m).pending) && Heard(Visit(w, m)) == Heard(w) + [Kept(m)]
  {
    ResultsSnoc(w.pending, Fresh(ToolResult(m.toolCallID, m.content)));
    ConcatAssociates(Expanded(w.msgs), Results(w.pending), [Kept(m)]);
  }

  lemma VisitPlain(w: Walk, m: Message)
    requires AllResults(w.pending) && IsPlain(m)
    ensures Visit(w, m).pending == [] && Heard(Visit(w, m)) == Heard(w) + [Kept(m)]
  {
    FlushHeard(w);
    PlainReads(m);
    ExpandedSnoc(Flush(w).msgs, WireMessage(m.role, Blocks(m)));
    assert Heard(w) + [Kept(m)] + [] == Heard(w) + [Kept(m)];
  }

  lemma VisitSystem(w: Walk, m: Message)
    requires AllResults(w.pending) && m.role == "system"
    ensures Visit(w, m).pending == [] && Heard(Visit(w, m)) == Heard(w)
  {
    FlushHeard(w);
  }

  lemma {:induction false} WalkHeard(ms: seq<Message>)
    ensures AllResults(Walked(ms).pending) && Heard(Walked(ms)) == KeptAll(Conversation(ms))
  {
    if ms != [] {
      var w, m := Walked(Front(ms)), Last(ms);
      WalkHeard(Front(ms));
      ConversationNext(ms);
      KeptAllSnoc(Conversation(Front(ms)), m);
      if m.role == "tool" {
        VisitTool(w, m);
      } else if m.role == "system" {
        VisitSystem(w, m);
      } else {
        VisitPlain(w, m);
      }
    }
  }

  lemma {:induction false} ContentsMarked(bs: seq<Block>, cs: seq<Block>)
    requires |bs| == |cs| && forall i :: 0 <= i < |bs| ==> bs[i].content == cs[i].content
    ensures Contents(bs) == Contents(cs) && Results(bs) == Results(cs)
  {
    if bs != [] {
      assert bs[|bs| - 1].content == cs[|cs| - 1].content;
      ContentsMarked(Front(bs), Front(cs));
    }
  }

  /** Equal except for cache marks. */
  ghost predicate SameButCache(a: seq<WireMessage>, b: seq<WireMessage>) {
    |a| == |b| && forall i :: 0 <= i < |a| ==> SameMessage(a[i], b[i])
  }

  ghost predicate SameMessage(a: WireMessage, b: WireMessage) {
    a.role == b.role && |a.blocks| == |b.blocks| && forall j :: 0 <= j < |a.blocks| ==> a.blocks[j].content == b.blocks[j].content
  }

  lemma {:induction false} ExpandedSameButCache(a: seq<WireMessage>, b: seq<WireMessage>)
    requires SameButCache(a, b)
    ensures Expanded(a) == Expanded(b)
  {
    if a != [] {
      ExpandedSameButCache(Front(a), Front(b));
      assert SameMessage(a[|a| - 1], b[|b| - 1]);
      ContentsMarked(Last(a).blocks, Last(b).blocks);
    }
  }

  function CachedIn(bs: seq<Block>): nat {
    if bs == [] then 0 else CachedIn(Front(bs)) + if Last(bs).cached then 1 else 0
  }

  function Cached(msgs: seq<WireMessage>): nat {
    if msgs == [] then 0 else Cached(Front(msgs)) + CachedIn(Last(msgs).blocks)
  }

  lemma MarkedLastBlock(bs: seq<Block>)
    requires bs != []
    ensures var cs := bs[|bs| - 1 := Last(bs).(cached := true)];
            CachedIn(bs) <= CachedIn(cs) <= CachedIn(bs) + 1
  {
    var cs := bs[|bs| - 1 := Last(bs).(cached := true)];
    assert Front(cs) == Front(bs);
  }

  lemma {:induction false} CachedUpdate(msgs: seq<WireMessage>, k: nat, m: WireMessage)
    requires k < |msgs|
    ensures Cached(msgs[k := m]) == Cached(msgs) - CachedIn(msgs[k].blocks) + CachedIn(m.blocks)
  {
    if k == |msgs| - 1 {
      assert Front(msgs[k := m]) == Front(msgs);
    } else {
      CachedUpdate(Front(msgs), k, m);
      assert Front(msgs[k := m]) == Front(msgs)[k := m];
    }
  }

  /** Cache marking changes no content and adds at most one mark. */
  lemma MarkingIsHarmless(msgs: seq<WireMessage>, historyLen: int, minTokens: nat)
    ensures SameButCache(Marked(msgs, historyLen, minTokens), msgs)
    ensures Cached(msgs) <= Cached(Marked(msgs, historyLen, minTokens)) <= Cached(msgs) + 1
  {
    if Marked(msgs, historyLen, minTokens) != msgs {
      var k := historyLen - 1;
      var m := msgs[k];
      MarkedLastBlock(m.blocks);
      CachedUpdate(msgs, k, m.(blocks := m.blocks[|m.blocks| - 1 := Last(m.blocks).(cached := true)]));
    }
  }

  /** Read back, the translation is what is kept of every message but the system ones, in order, whatever is
      marked for caching. */
  lemma ConversationKept(ms: seq<Message>, historyLen: int, minTokens: nat)
    ensures Expanded(Marked(Translated(ms), historyLen, minTokens)) == KeptAll(Conversation(ms))
  {
    WalkHeard(ms);
    FlushHeard(Walked(ms));
    MarkingIsHarmless(Translated(ms), historyLen, minTokens);
    ExpandedSameButCache(Marked(Translated(ms), historyLen, minTokens), Translated(ms));
  }

  /** It is the original conversation without its system messages exactly when every message of that is
      lossless. */
  lemma ConversationPreservedIff(ms: seq<Message>, historyLen: int, minTokens: nat)
    ensures Expanded(Marked(Translated(ms), historyLen, minTokens)) == Conversation(ms)
            <==> forall i :: 0 <= i < |Conversation(ms)| ==> Lossless(Conversation(ms)[i])
  {
    ConversationKept(ms, historyLen, minTokens);
    KeptAllIff(Conversation(ms));
  }

  lemma {:induction false} KeptAllIff(ms: seq<Message>)
    ensures KeptAll(ms) == ms <==> forall i :: 0 <= i < |ms| ==> Lossless(ms[i])
  {
    forall i | 0 <= i < |ms| ensures KeptAll(ms)[i] == ms[i] <==> Lossless(ms[i]) {
      KeptAllAt(ms, i);
      KeptIff(ms[i]);
    }
  }

  // ----- shape of the result

  /** The maximal runs of tool messages, as kept. */
  function ToolRuns(ms: seq<Message>): (r: seq<seq<Message>>)
    ensures ms != [] && Last(ms).role == "tool" ==> r != []
  {
    if ms == [] then [] else
      var front, m := ToolRuns(Front(ms)), Last(ms);
      if m.role != "tool" then front
      else if Front(ms) != [] && Last(Front(ms)).role == "tool" then Front(front) + [Last(front) + [Kept(m)]]
      else front + [[Kept(m)]]
  }

  /** The results that each message of results holds. */
  function ResultRuns(msgs: seq<WireMessage>): seq<seq<Message>> {
    if msgs == [] then []
    else if IsResults(Last(msgs)) then ResultRuns(Front(msgs)) + [Results(Last(msgs).blocks)]
    else ResultRuns(Front(msgs))
  }

  lemma ResultRunsSnoc(msgs: seq<WireMessage>, m: WireMessage)
    ensures ResultRuns(msgs + [m]) == if IsResults(m) then ResultRuns(msgs) + [Results(m.blocks)] else ResultRuns(msgs)
  {
    assert Front(msgs + [m]) == msgs;
  }

  /** The runs a walk has seen: those it wrote, and the one it is in. */
  function RunsSeen(w: Walk): seq<seq<Message>> {
    if w.pending == [] then ResultRuns(w.msgs) else ResultRuns(w.msgs) + [Results(w.pending)]
  }

  lemma FlushRuns(w: Walk)
    requires AllResults(w.pending)
    ensures ResultRuns(Flush(w).msgs) == RunsSeen(w)
  {
    ResultRunsSnoc(w.msgs, WireMessage("user", w.pending));
  }

  lemma ToolExtendsRun(w: Walk, m: Message)
    requires AllResults(w.pending) && m.role == "tool"
    ensures RunsSeen(Visit(w, m)) ==
            if w.pending != [] then Front(RunsSeen(w)) + [Last(RunsSeen(w)) + [Kept(m)]] else RunsSeen(w) + [[Kept(m)]]
  {
    ResultsSnoc(w.pending, Fresh(ToolResult(m.toolCallID, m.content)));
    if w.pending != [] {
      assert Front(RunsSeen(w)) == ResultRuns(w.msgs);
    } else {
      assert Results([]) + [Kept(m)] == [Kept(m)];
    }
  }

  lemma {:induction false} WalkRuns(ms: seq<Message>)
    ensures RunsSeen(Walked(ms)) == ToolRuns(ms)
    ensures Walked(ms).pending != [] <==> ms != [] && Last(ms).role == "tool"
  {
    if ms != [] {
      var w, m := Walked(Front(ms)), Last(ms);
      WalkRuns(Front(ms));
      WalkHeard(Front(ms));
      if m.role == "tool" {
        ToolExtendsRun(w, m);
      } else {
        FlushRuns(w);
        ResultRunsSnoc(Flush(w).msgs, WireMessage(m.role, Blocks(m)));
      }
    }
  }

  lemma {:induction false} ResultRunsSameButCache(a: seq<WireMessage>, b: seq<WireMessage>)
    requires SameButCache(a, b)
    ensures ResultRuns(a) == ResultRuns(b)
  {
    if a != [] {
      ResultRunsSameButCache(Front(a), Front(b));
      assert SameMessage(a[|a| - 1], b[|b| - 1]);
      ContentsMarked(Last(a).blocks, Last(b).blocks);
    }
  }

  /** Every maximal run of tool messages becomes exactly one message of results: the k-th such message
      holds the k-th run, whole and in order. */
  lemma OneMessagePerRun(ms: seq<Message>, historyLen: int, minTokens: nat)
    ensures ResultRuns(Marked(Translated(ms), historyLen, minTokens)) == ToolRuns(ms)
  {
    WalkRuns(ms);
    WalkHeard(ms);
    FlushRuns(Walked(ms));
    MarkingIsHarmless(Translated(ms), historyLen, minTokens);
    ResultRunsSameButCache(Marked(Translated(ms), historyLen, minTokens), Translated(ms));
  }

  ghost predicate SoundRole(m: WireMessage) {
    m.role != "tool" && m.role != "system" && (IsResults(m) ==> m.role == "user" && AllResults(m.blocks))
  }

  ghost predicate SoundRoles(msgs: seq<WireMessage>) {
    forall i :: 0 <= i < |msgs| ==> SoundRole(msgs[i])
  }

  lemma SoundRolesSnoc(msgs: seq<WireMessage>, m: WireMessage)
    requires SoundRoles(msgs) && SoundRole(m)
    ensures SoundRoles(msgs + [m])
  {
  }

  lemma FlushRoles(w: Walk)
    requires SoundRoles(w.msgs) && AllResults(w.pending)
    ensures SoundRoles(Flush(w).msgs)
  {
    SoundRolesSnoc(w.msgs, WireMessage("user", w.pending));
  }

  lemma {:induction false} WalkRoles(ms: seq<Message>)
    ensures SoundRoles(Walked(ms).msgs)
  {
    if ms != [] {
      var w, m := Walked(Front(ms)), Last(ms);
      WalkRoles(Front(ms));
      WalkHeard(Front(ms));
      FlushRoles(w);
      if m.role != "tool" && m.role != "system" {
        SoundRolesSnoc(Flush(w).msgs, WireMessage(m.role, Blocks(m)));
      }
    }
  }

  /** No message on the wire has role tool or system; a message of results is a user message that
      holds nothing else. */
  lemma WireRoles(ms: seq<Message>)
    ensures SoundRoles(Translated(ms))
  {
    WalkRoles(ms);
    WalkHeard(ms);
    FlushRoles(Walked(ms));
  }

  // ----- the history prefix

  function Plain(m: Message): WireMessage {
    WireMessage(m.role, Blocks(m))
  }

  lemma {:induction false} PlainPrefix(ms: seq<Message>, k: nat)
    requires k <= |ms| && forall i :: 0 <= i < k ==> IsPlain(ms[i])
    ensures |Walked(ms).msgs| >= k && (|ms| == k ==> |Walked(ms).msgs| == k && Walked(ms).pending == [])
    ensures forall i :: 0 <= i < k ==> Walked(ms).msgs[i] == Plain(ms[i])
  {
    if ms != [] {
      PlainPrefix(Front(ms), if k == |ms| then k - 1 else k);
    }
  }

  /** The history prefix is where the cache breakpoint expects it, message by message, exactly when
      it holds no tool and no system message. */
  lemma HistoryAlignedIff(ms: seq<Message>, historyLen: nat)
    requires historyLen <= |ms|
    ensures (historyLen <= |Translated(ms)| && forall i :: 0 <= i < historyLen ==> Translated(ms)[i] == Plain(ms[i]))
            <==> forall i :: 0 <= i < historyLen ==> IsPlain(ms[i])
  {
    WireRoles(ms);
    if forall i :: 0 <= i < historyLen ==> IsPlain(ms[i]) {
      PlainPrefix(ms, historyLen);
    } else if historyLen <= |Translated(ms)| {
      var i :| 0 <= i < historyLen && !IsPlain(ms[i]);
      assert SoundRole(Translated(ms)[i]);
    }
  }

  // ----- the system prompt

  /** What the system messages say, in order, from the first that says something. */
  function SystemTexts(ms: seq<Message>): seq<string> {
    if ms == [] then [] else
      var front, m := SystemTexts(Front(ms)), Last(ms);
      if m.role != "system" || (front == [] && m.content == "") then front else front + [m.content]
  }

  function Paragraphs(texts: seq<string>): string {
    if texts == [] then "" else if |texts| == 1 then texts[0] else Paragraphs(Front(texts)) + "\n\n" + Last(texts)
  }

  /** No system message is dropped: the prompt is all of them, set apart by blank lines. */
  lemma {:induction false} SystemKeepsAll(ms: seq<Message>)
    ensures Walked(ms).system == Paragraphs(SystemTexts(ms))
    ensures Walked(ms).system == "" <==> SystemTexts(ms) == []
  {
    if ms != [] {
      SystemKeepsAll(Front(ms));
      var front, m := SystemTexts(Front(ms)), Last(ms);
      if m.role == "system" && front != [] {
        assert Front(front + [m.content]) == front;
      }
    }
  }

  // ----- streamed tool calls

  datatype StreamEvent = Begin(index: int, id: string, name: string) | Args(index: int, fragment: string)
  datatype Gathered = Gathered(byIndex: map<int, ToolCall>, order: seq<int>)

  function Gather(g: Gathered, e: StreamEvent): Gathered {
    match e
    case Begin(i, id, name) => Gathered(g.byIndex[i := ToolCall(id, "function", name, "")], g.order + [i])
    case Args(i, s) =>
      if i in g.byIndex then g.(byIndex := g.byIndex[i := g.byIndex[i].(input := g.byIndex[i].input + s)]) else g
  }

  function GatherAll(run: seq<StreamEvent>): Gathered {
    if run == [] then Gathered(map[], []) else Gather(GatherAll(Front(run)), Last(run))
  }

  ghost predicate Ordered(g: Gathered) {
    forall k :: 0 <= k < |g.order| ==> g.order[k] in g.byIndex
  }

  class StreamToolCallAccumulator {
    var byIndex: map<int, ToolCall>
    var order: seq<int>

    ghost function State(): Gathered
      reads this
    {
      Gathered(byIndex, order)
    }

    constructor ()
      ensures State() == GatherAll([])
    {
      byIndex, order := map[], [];
    }

    method Start(index: int, id: string, name: string)
      modifies this
      ensures State() == Gather(old(State()), Begin(index, id, name))
    {
      byIndex := byIndex[index := ToolCall(id, "function", name, "")];
      order := order + [index];
    }

    method AppendArgs(index: int, fragment: string)
      modifies this`byIndex
      ensures State() == Gather(old(State()), Args(index, fragment))
    {
      if index in byIndex {
        byIndex := byIndex[index := byIndex[index].(input := byIndex[index].input + fragment)];
      }
    }

    method Finalize() returns (out: seq<ToolCall>)
      requires Ordered(State())
      ensures |out| == |order| && forall k :: 0 <= k < |order| ==> out[k] == byIndex[order[k]]
    {
      out := [];
      for i := 0 to |order|
        invariant |out| == i && forall k :: 0 <= k < i ==> out[k] == byIndex[order[k]]
      {
        out := out + [byIndex[order[i]]];
      }
    }
  }

  // The calls as the stream means them: every start opens a call, and a fragment belongs to the call
  // most recently opened at its index.

  datatype Opened = Opened(index: int, call: ToolCall)

  function Extend(os: seq<Opened>, i: int, s: string): (r: seq<Opened>)
    ensures |r| == |os| && forall k :: 0 <= k < |os| ==> r[k].index == os[k].index
  {
    if os == [] then []
    else if Last(os).index == i then Front(os) + [Opened(i, Last(os).call.(input := Last(os).call.input + s))]
    else Extend(Front(os), i, s) + [Last(os)]
  }

  function Streamed(run: seq<StreamEvent>): seq<Opened> {
    if run == [] then [] else
      match Last(run)
      case Begin(i, id, name) => Streamed(Front(run)) + [Opened(i, ToolCall(id, "function", name, ""))]
      case Args(i, s) => Extend(Streamed(Front(run)), i, s)
  }

  function Latest(os: seq<Opened>, i: int): Option<ToolCall> {
    if os == [] then None else if Last(os).index == i then Some(Last(os).call) else Latest(Front(os), i)
  }

  lemma LatestSnoc(os: seq<Opened>, o: Opened, i: int)
    ensures Latest(os + [o], i) == if o.index == i then Some(o.call) else Latest(os, i)
  {
    assert Front(os + [o]) == os;
  }

  lemma {:induction false} LatestExtend(os: seq<Opened>, i: int, s: string, j: int)
    ensures Latest(Extend(os, i, s), j) ==
            var c := Latest(os, j); if i == j && c.Some? then Some(c.value.(input := c.value.input + s)) else c
  {
    if os != [] {
      if Last(os).index == i {
        LatestSnoc(Front(os), Last(Extend(os, i, s)), j);
      } else {
        LatestSnoc(Extend(Front(os), i, s), Last(os), j);
        LatestExtend(Front(os), i, s, j);
      }
    }
  }

  lemma {:induction false} GatherLatest(run: seq<StreamEvent>, j: int)
    ensures var m := GatherAll(run).byIndex;
            Latest(Streamed(run), j) == if j in m then Some(m[j]) else None
  {
    if run != [] {
      GatherLatest(Front(run), j);
      match Last(run)
      case Begin(i, id, name) => LatestSnoc(Streamed(Front(run)), Opened(i, ToolCall(id, "function", name, "")), j);
      case Args(i, s) => LatestExtend(Streamed(Front(run)), i, s, j);
    }
  }

  lemma {:induction false} GatherOrder(run: seq<StreamEvent>)
    ensures Ordered(GatherAll(run)) && |GatherAll(run).order| == |Streamed(run)|
    ensures forall k :: 0 <= k < |Streamed(run)| ==> GatherAll(run).order[k] == Streamed(run)[k].index
  {
    if run != [] {
      GatherOrder(Front(run));
    }
  }

  lemma {:induction false} LatestOfDistinct(os: seq<Opened>, k: nat)
    requires k < |os| && forall l :: k < l < |os| ==> os[l].index != os[k].index
    ensures Latest(os, os[k].index) == Some(os[k].call)
  {
    if k < |os| - 1 {
      assert os[|os| - 1].index != os[k].index;
      LatestOfDistinct(Front(os), k);
    }
  }

  ghost predicate DistinctIndices(os: seq<Opened>) {
    forall k, l :: 0 <= k < l < |os| ==> os[k].index != os[l].index
  }

  /** The accumulated calls are the streamed calls, in the order they were opened and each with its
      own fragments, exactly when no index was opened twice; calls carry different ids. */
  lemma CallsReassembledIff(run: seq<StreamEvent>)
    requires forall k, l :: 0 <= k < l < |Streamed(run)| ==> Streamed(run)[k].call.id != Streamed(run)[l].call.id
    ensures var g, os := GatherAll(run), Streamed(run);
            && Ordered(g) && |g.order| == |os|
            && (DistinctIndices(os) <==> forall k :: 0 <= k < |os| ==> g.byIndex[g.order[k]] == os[k].call)
  {
    GatherOrder(run);
    var g, os := GatherAll(run), Streamed(run);
    if DistinctIndices(os) {
      forall k | 0 <= k < |os| ensures g.byIndex[g.order[k]] == os[k].call {
        LatestOfDistinct(os, k);
        GatherLatest(run, os[k].index);
      }
    } else {
      var k, l :| 0 <= k < l < |os| && os[k].index == os[l].index;
      assert g.order[k] == g.order[l] && os[k].call.id != os[l].call.id;
    }
  }
}
