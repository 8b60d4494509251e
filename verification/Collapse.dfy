/** Line collapsing in the request compressor: blank runs, and run-length coding of repeated lines. */
module Collapse {
  import opened Seqs
  import opened Lines
  import opened RunLength

  // ----- repeated lines

  const MARKER_HEAD := "... (repeated "
  const MARKER_TAIL := " times)"

  function Marker(n: nat): string {
    MARKER_HEAD + Decimal(n) + MARKER_TAIL
  }

  /** The number a marker line carries. */
  function CountIn(line: string): nat {
    if |line| < |MARKER_HEAD| + |MARKER_TAIL| then 0
    else Value(line[|MARKER_HEAD|..|line| - |MARKER_TAIL|])
  }

  predicate IsMarker(line: string) {
    line == Marker(CountIn(line))
  }

  lemma MarkerCount(n: nat)
    ensures CountIn(Marker(n)) == n && IsMarker(Marker(n)) && Plain(Marker(n))
  {
    var m := Marker(n);
    assert m[|MARKER_HEAD|..|m| - |MARKER_TAIL|] == Decimal(n);
    DecimalRoundTrip(n);
    DecimalPlain(n);
  }

  /** What is written for one run. */
  function Coded(r: Run<string>): seq<string> {
    if r.item != "" && r.n >= 3 then [r.item, Marker(r.n)] else Copies(r.item, r.n)
  }

  function RunsCollapsed(text: string): string {
    Join(CodedAll(Coded, Runs(Split(text))))
  }

  method CollapseRepeatedLines(content: string) returns (r: string)
    ensures r == RunsCollapsed(content)
  {
    var out := CodeRuns(Coded, Split(content));
    r := Join(out);
  }

  /** What the expander takes a line for: the count of a marker that a run can have written, else 0. */
  function MarkerCountOf(line: string): nat {
    if IsMarker(line) && CountIn(line) >= 3 then CountIn(line) else 0
  }

  lemma IsLineCodec()
    ensures IsCodec(Codec(Coded, Marker, MarkerCountOf, ""))
  {
    var c := Codec(Coded, Marker, MarkerCountOf, "");
    forall n: nat | n >= 3 ensures c.count(c.mark(n)) == n && c.mark(n) != c.blank {
      MarkerCount(n);
    }
  }

  /** The expander: a marker stands for further copies of the line before it. */
  function Expanded(ls: seq<string>): seq<string> {
    Expand(Codec(Coded, Marker, MarkerCountOf, ""), ls)
  }

  lemma CodedPlain(r: Run<string>)
    requires r.n > 0 && Plain(r.item)
    ensures AllPlain(Coded(r)) && Coded(r) != []
  {
    MarkerCount(r.n);
    CopiesAll(Plain, r.item, r.n);
  }

  lemma {:induction false} CodedAllPlain(rs: seq<Run<string>>)
    requires forall i :: 0 <= i < |rs| ==> rs[i].n > 0 && Plain(rs[i].item)
    ensures AllPlain(CodedAll(Coded, rs)) && (rs != [] ==> CodedAll(Coded, rs) != [])
  {
    if rs != [] {
      CodedAllPlain(Front(rs));
      assert rs[|rs| - 1] == Last(rs);
      CodedPlain(Last(rs));
    }
  }

  lemma {:induction false} ExpandedPlain(ls: seq<string>)
    requires AllPlain(ls)
    ensures AllPlain(Expanded(ls)) && (ls != [] ==> Expanded(ls) != [])
  {
    if ls != [] {
      ExpandedPlain(Front(ls));
      var out := Expanded(Front(ls));
      if out != [] {
        CopiesAll(Plain, Last(out), MarkerCountOf(Last(ls)));
        CopiesAll(Plain, Last(out), if MarkerCountOf(Last(ls)) > 0 then MarkerCountOf(Last(ls)) - 1 else 0);
      }
    }
  }

  /** Every line that reads as a marker of three or more stands at the start of the text or behind a
      blank line, and does not come exactly twice in a row. */
  ghost predicate NoFalseMarkers(text: string) {
    Unmistakable(Codec(Coded, Marker, MarkerCountOf, ""), Runs(Split(text)))
  }

  lemma ExpandedLines(text: string)
    ensures Split(RunsCollapsed(text)) == CodedAll(Coded, Runs(Split(text))) && AllPlain(Split(RunsCollapsed(text)))
    ensures Expanded(Split(RunsCollapsed(text))) == Split(text) <==> NoFalseMarkers(text)
  {
    var ls := Split(text);
    SplitPlain(text);
    RunsAll(Plain, ls);
    CodedAllPlain(Runs(ls));
    SplitJoin(CodedAll(Coded, Runs(ls)));
    IsLineCodec();
    RunsSeparate(ls);
    FlattenRuns(ls);
    ExpandRecoversIff(Codec(Coded, Marker, MarkerCountOf, ""), Runs(ls));
  }

  /** Exactly which texts the expander recovers from their collapsed form. */
  lemma CollapseReversibleIff(text: string)
    ensures Join(Expanded(Split(RunsCollapsed(text)))) == text <==> NoFalseMarkers(text)
  {
    ExpandedLines(text);
    ExpandedPlain(Split(RunsCollapsed(text)));
    SplitJoin(Expanded(Split(RunsCollapsed(text))));
    JoinSplit(text);
  }

  /** In particular every text without a line that looks like a marker. */
  lemma CollapseReversible(text: string)
    requires forall i :: 0 <= i < |Split(text)| ==> !IsMarker(Split(text)[i])
    ensures Join(Expanded(Split(RunsCollapsed(text)))) == text
  {
    RunsAll((l: string) => !IsMarker(l), Split(text));
    NoMarksUnmistakable(Codec(Coded, Marker, MarkerCountOf, ""), Runs(Split(text)));
    CollapseReversibleIff(text);
  }

  /** No expander recovers all texts: every run that collapses shares its collapsed form with the two
      lines of that form. */
  lemma MarkerLineCollides(l: string, n: nat)
    requires n >= 3 && l != "" && l != Marker(n)
    ensures Copies(l, n) != [l, Marker(n)]
    ensures CodedAll(Coded, Runs(Copies(l, n))) == CodedAll(Coded, Runs([l, Marker(n)]))
  {
    RunsOfCopies(l, n);
    SnocParts([], Run(l, n));
    RunsOfCopies(l, 1);
    assert Copies(l, 1) == [l] && Copies(Marker(n), 1) == [Marker(n)];
    RunStarts([l], Marker(n));
    assert [l] + [Marker(n)] == [l, Marker(n)];
    SnocParts([Run(l, 1)], Run(Marker(n), 1));
    SnocParts([], Run(l, 1));
  }

  // ----- blank lines

  predicate IsSpace(c: char) {
    c == ' ' || c == '\t' || c == '\r'
  }

  /** strings.TrimRight(line, " \t\r"). */
  function TrimRight(line: string): (r: string)
    ensures r <= line && (r != "" ==> !IsSpace(Last(r)))
    ensures forall i :: |r| <= i < |line| ==> IsSpace(line[i])
  {
    if line == "" || !IsSpace(Last(line)) then line else TrimRight(Front(line))
  }

  lemma TrimRightFixed(line: string)
    ensures TrimRight(TrimRight(line)) == TrimRight(line)
  {
  }

  /** Trim every line and drop blank ones that follow a blank one. */
  function Squeeze(ls: seq<string>): seq<string> {
    if ls == [] then [] else
      var out, t := Squeeze(Front(ls)), TrimRight(Last(ls));
      if t == "" && out != [] && Last(out) == "" then out else out + [t]
  }

  function BlankCollapsed(text: string): string {
    Join(Squeeze(Split(text)))
  }

  method CollapseBlankLines(content: string) returns (r: string)
    ensures r == BlankCollapsed(content)
  {
    var lines := Split(content);
    var out: seq<string> := [];
    var blankRun := false;
    for i := 0 to |lines|
      invariant out == Squeeze(lines[..i])
      invariant blankRun == (out != [] && Last(out) == "")
    {
      assert Front(lines[..i + 1]) == lines[..i];
      var trimmed := TrimRight(lines[i]);
      if trimmed == "" {
        if blankRun {
          continue;
        }
        blankRun := true;
      } else {
        blankRun := false;
      }
      out := out + [trimmed];
    }
    assert lines[..|lines|] == lines;
    r := Join(out);
  }

  predicate Squeezed(ls: seq<string>) {
    && (forall i :: 0 <= i < |ls| ==> TrimRight(ls[i]) == ls[i])
    && (forall i :: 0 <= i < |ls| - 1 ==> ls[i] != "" || ls[i + 1] != "")
  }

  lemma {:induction false} SqueezeIsSqueezed(ls: seq<string>)
    ensures Squeezed(Squeeze(ls)) && (ls != [] ==> Squeeze(ls) != [])
  {
    if ls != [] {
      SqueezeIsSqueezed(Front(ls));
      TrimRightFixed(Last(ls));
    }
  }

  lemma {:induction false} SqueezeFixed(ls: seq<string>)
    requires Squeezed(ls)
    ensures Squeeze(ls) == ls
  {
    if ls != [] {
      SqueezeFixed(Front(ls));
      FrontLast(ls);
      assert |ls| > 1 ==> Last(Front(ls)) == ls[|ls| - 2];
    }
  }

  function TrimAll(ls: seq<string>): seq<string> {
    if ls == [] then [] else TrimAll(Front(ls)) + [TrimRight(Last(ls))]
  }

  function NonBlank(): string -> bool {
    (l: string) => l != ""
  }

  /** The right-trimmed non-blank lines are kept, in order. */
  lemma {:induction false} SqueezeKeepsNonBlank(ls: seq<string>)
    ensures Filter(NonBlank(), Squeeze(ls)) == Filter(NonBlank(), TrimAll(ls))
  {
    if ls != [] {
      SqueezeKeepsNonBlank(Front(ls));
      FilterSnoc(NonBlank(), Squeeze(Front(ls)), TrimRight(Last(ls)));
      FilterSnoc(NonBlank(), TrimAll(Front(ls)), TrimRight(Last(ls)));
    }
  }

  lemma {:induction false} SqueezePlain(ls: seq<string>)
    requires AllPlain(ls)
    ensures AllPlain(Squeeze(ls))
  {
    if ls != [] {
      SqueezePlain(Front(ls));
      assert Plain(ls[|ls| - 1]);
      assert TrimRight(Last(ls)) <= Last(ls);
    }
  }

  /** Collapsing blank lines leaves no two adjacent ones, keeps the right-trimmed non-blank lines in
      order, and is idempotent. */
  lemma BlankCollapseSpec(text: string)
    ensures Squeezed(Split(BlankCollapsed(text)))
    ensures Filter(NonBlank(), Split(BlankCollapsed(text))) == Filter(NonBlank(), TrimAll(Split(text)))
    ensures BlankCollapsed(BlankCollapsed(text)) == BlankCollapsed(text)
  {
    var ls := Split(text);
    SplitPlain(text);
    SqueezeIsSqueezed(ls);
    SqueezePlain(ls);
    SplitJoin(Squeeze(ls));
    SqueezeKeepsNonBlank(ls);
    SqueezeFixed(Squeeze(ls));
  }

  /** The trimmed lines, but of neighbouring blank ones only the first. */
  function FirstBlanks(ls: seq<string>): seq<string> {
    if ls == [] then [] else
      var n := |ls| - 1;
      FirstBlanks(Front(ls)) + if TrimRight(ls[n]) != "" || n == 0 || TrimRight(ls[n - 1]) != "" then [TrimRight(ls[n])] else []
  }

  /** A blank line goes exactly when the line before it is blank too. */
  lemma {:induction false} SqueezeExact(ls: seq<string>)
    ensures Squeeze(ls) == FirstBlanks(ls)
    ensures ls != [] ==> Squeeze(ls) != [] && Last(Squeeze(ls)) == TrimRight(Last(ls))
  {
    if ls != [] {
      SqueezeExact(Front(ls));
    }
  }

  /** Every line of the text remains, trimmed, but of neighbouring blank ones only the first. */
  lemma BlankCollapseExact(text: string)
    ensures Split(BlankCollapsed(text)) == FirstBlanks(Split(text))
  {
    SplitPlain(text);
    SqueezePlain(Split(text));
    SqueezeIsSqueezed(Split(text));
    SplitJoin(Squeeze(Split(text)));
    SqueezeExact(Split(text));
  }

  /** Both collapses together: the expander gives back every line, trimmed, but of neighbouring blank ones only
      the first. */
  lemma CollapsesRecovered(text: string)
    requires NoFalseMarkers(BlankCollapsed(text))
    ensures Expanded(Split(RunsCollapsed(BlankCollapsed(text)))) == FirstBlanks(Split(text))
  {
    ExpandedLines(BlankCollapsed(text));
    BlankCollapseExact(text);
  }
}
