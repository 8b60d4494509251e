/** What the request compressor does to a message, in terms of the message: which ones it shortens, what of their
    text remains, and when the request gets the retrieval tool. */
module CompressorLaws {
  import opened Seqs
  import opened Lines
  import opened Compressor
  import C = Collapse

  // ----- one text

  /** The text before a cut is the beginning of the collapsed text, as long as allowed; with the characters
      reported as omitted it is all of it, and a note is added exactly when some are. */
  lemma CutExactly(p: Plugin, content: string) returns (kept: string, note: string)
    ensures Shortened(p, content) == kept + note && kept <= Collapsed(p, content)
    ensures |kept| == Min(|Collapsed(p, content)|, p.maxChars)
    ensures |kept| + Omitted(p, content) == |Collapsed(p, content)|
    ensures note == "" <==> |Collapsed(p, content)| <= p.maxChars
    ensures note != "" ==> NoteSays(note, Omitted(p, content))
  {
    var c := Collapsed(p, content);
    if |c| <= p.maxChars {
      kept, note := c, "";
      assert kept + note == c;
    } else {
      kept, note := c[..p.maxChars], TruncationNote(Omitted(p, content));
      NoteCarries(Omitted(p, content));
    }
  }

  const NOTE_HEAD := "\n... [truncated "
  const NOTE_TAIL := " chars]"

  /** The note names a number of characters, in decimal. */
  predicate NoteSays(note: string, n: nat) {
    && |NOTE_HEAD| + |NOTE_TAIL| <= |note| && NOTE_HEAD <= note
    && note[|note| - |NOTE_TAIL|..] == NOTE_TAIL
    && Value(note[|NOTE_HEAD|..|note| - |NOTE_TAIL|]) == n
  }

  lemma NoteCarries(n: nat)
    ensures NoteSays(TruncationNote(n), n)
  {
    var note := TruncationNote(n);
    assert note[|NOTE_HEAD|..|note| - |NOTE_TAIL|] == Decimal(n);
    DecimalRoundTrip(n);
  }

  /** Text that is not JSON, once comments are stripped from it. */
  predicate IsBase(p: Plugin, content: string, base: string) {
    && p.json(content).None?
    && (p.strip(content).Some? ==> base == p.strip(content).value)
    && (p.strip(content).None? ==> base == content)
  }

  lemma CollapsedBase(p: Plugin, content: string, base: string)
    requires IsBase(p, content, base)
    ensures Collapsed(p, content) == C.RunsCollapsed(C.BlankCollapsed(base))
  {
  }

  /** JSON is replaced by its compact form. */
  lemma JsonCompacted(p: Plugin, content: string)
    requires p.json(content).Some?
    ensures Collapsed(p, content) == p.json(content).value
  {
  }

  /** Of other text collapsing loses only trailing space and repeated blank lines, unless it holds lines that look
      like markers: the expander gives all the other lines back. */
  lemma CollapsingKeeps(p: Plugin, content: string, base: string)
    requires IsBase(p, content, base) && C.NoFalseMarkers(C.BlankCollapsed(base))
    ensures C.Expanded(Split(Collapsed(p, content))) == C.FirstBlanks(Split(base))
  {
    CollapsedBase(p, content, base);
    C.CollapsesRecovered(base);
  }

  // ----- one request

  /** Message i is the caller's live turn. */
  predicate IsLiveTurn(ms: seq<Message>, i: nat)
    requires i < |ms|
  {
    ms[i].role == "user" && forall j :: i < j < |ms| ==> ms[j].role != "user"
  }

  /** Message i is text that may be shortened. */
  predicate IsOldText(ms: seq<Message>, i: nat)
    requires i < |ms|
  {
    !IsLiveTurn(ms, i) && ms[i].role != "system" && ms[i].parts == 0 && ms[i].content != ""
  }

  lemma TouchedIff(ms: seq<Message>, i: nat)
    requires i < |ms|
    ensures Touched(ms, i) <==> IsOldText(ms, i)
  {
    if LiveTurn(ms) >= 0 && IsLiveTurn(ms, i) {
      assert i == LiveTurn(ms);
    }
  }

  /** Every such message, and no other, has its text replaced by the shortened one, with a note on how to retrieve
      the original if text was cut off and the store is used. Nothing else of a message changes. */
  lemma RewrittenIs(p: Plugin, reversible: bool, ids: nat -> string, ms: seq<Message>, i: nat)
    requires i < |ms|
    ensures var r, m := Rewritten(p, reversible, ids, ms, i), ms[i];
            && r.role == m.role && r.parts == m.parts
            && (!IsOldText(ms, i) ==> r == m)
            && (IsOldText(ms, i) && (!reversible || |Collapsed(p, m.content)| <= p.maxChars) ==>
                  r.content == Shortened(p, m.content))
            && (IsOldText(ms, i) && reversible && |Collapsed(p, m.content)| > p.maxChars ==>
                  && Shortened(p, m.content) <= r.content
                  && r.content[|Shortened(p, m.content)|..] ==
                     RetrievalNote(ids(Stored(p, reversible, ms, i)), |Collapsed(p, m.content)| - p.maxChars))
  {
    TouchedIff(ms, i);
    assert Shortened(p, ms[i].content) + "" == Shortened(p, ms[i].content);
  }

  /** A text of message i is cut off, and kept in the store. */
  predicate IsCut(p: Plugin, reversible: bool, ms: seq<Message>, i: nat)
    requires i < |ms|
  {
    reversible && IsOldText(ms, i) && |Collapsed(p, ms[i].content)| > p.maxChars
  }

  /** There are Puts, and so a retrieval tool, exactly when some message is cut; they are numbered in order. */
  lemma {:induction false} StoredIff(p: Plugin, reversible: bool, ms: seq<Message>, n: nat)
    requires n <= |ms|
    ensures Stored(p, reversible, ms, n) > 0 <==> exists i :: 0 <= i < n && IsCut(p, reversible, ms, i)
    ensures forall i :: 0 <= i < n ==> Stored(p, reversible, ms, i) <= Stored(p, reversible, ms, n)
    ensures forall i :: 0 <= i < n && IsCut(p, reversible, ms, i) ==> Stored(p, reversible, ms, i) < Stored(p, reversible, ms, n)
  {
    if n > 0 {
      StoredIff(p, reversible, ms, n - 1);
      TouchedIff(ms, n - 1);
      assert Truncated(p, reversible, ms, n - 1) <==> IsCut(p, reversible, ms, n - 1);
    }
  }
}
