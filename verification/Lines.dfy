/** Text as lines: strings.Split and strings.Join on newlines, and decimal numerals. */
module Lines {
  import opened Seqs

  predicate Plain(line: string) {
    '\n' !in line
  }

  ghost predicate AllPlain(ls: seq<string>) {
    forall i :: 0 <= i < |ls| ==> Plain(ls[i])
  }

  /** strings.Split(s, "\n"): one more line than there are newlines. */
  function Split(s: string): (ls: seq<string>)
    ensures ls != []
  {
    if s == "" then [""] else
      var ls := Split(Front(s));
      if Last(s) == '\n' then ls + [""] else Front(ls) + [Last(ls) + [Last(s)]]
  }

  /** strings.Join(ls, "\n"). */
  function Join(ls: seq<string>): string {
    if ls == [] then "" else if |ls| == 1 then ls[0] else Join(Front(ls)) + "\n" + Last(ls)
  }

  lemma {:induction false} SplitPlain(s: string)
    ensures AllPlain(Split(s))
  {
    if s != "" {
      SplitPlain(Front(s));
    }
  }

  lemma JoinSnoc(ls: seq<string>, l: string)
    ensures Join(ls + [l]) == if ls == [] then l else Join(ls) + "\n" + l
  {
    assert Front(ls + [l]) == ls;
  }

  lemma {:induction false} JoinSplit(s: string)
    ensures Join(Split(s)) == s
  {
    if s != "" {
      var ls := Split(Front(s));
      JoinSplit(Front(s));
      FrontLast(s);
      FrontLast(ls);
      JoinSnoc(Front(ls), Last(ls));
      if Last(s) == '\n' {
        JoinSnoc(ls, "");
      } else {
        JoinSnoc(Front(ls), Last(ls) + [Last(s)]);
      }
    }
  }

  lemma {:induction false} SplitAppend(s: string, line: string)
    requires Plain(line)
    ensures Split(s + "\n" + line) == Split(s) + [line]
    decreases |line|
  {
    var t := s + "\n" + line;
    if line == "" {
      assert t == s + "\n" && Front(t) == s;
    } else {
      SplitAppend(s, Front(line));
      assert Front(t) == s + "\n" + Front(line) && Last(t) == Last(line);
      FrontLast(line);
      assert Front(Split(s) + [Front(line)]) == Split(s);
    }
  }

  lemma {:induction false} SplitLine(line: string)
    requires Plain(line)
    ensures Split(line) == [line]
  {
    if line != "" {
      SplitLine(Front(line));
      FrontLast(line);
      assert Front([Front(line)]) == [];
    }
  }

  /** Lines survive joining and splitting when there is at least one and none contains a newline. */
  lemma {:induction false} SplitJoin(ls: seq<string>)
    requires ls != [] && AllPlain(ls)
    ensures Split(Join(ls)) == ls
  {
    if |ls| == 1 {
      SplitLine(ls[0]);
    } else {
      SplitJoin(Front(ls));
      SplitAppend(Join(Front(ls)), Last(ls));
      FrontLast(ls);
    }
  }

  function Digit(n: nat): char
    requires n < 10
  {
    ['0', '1', '2', '3', '4', '5', '6', '7', '8', '9'][n]
  }

  function Decimal(n: nat): (s: string)
    ensures s != ""
  {
    if n < 10 then [Digit(n)] else Decimal(n / 10) + [Digit(n % 10)]
  }

  function DigitValue(c: char): nat {
    if '0' <= c <= '9' then c as int - '0' as int else 0
  }

  function Value(s: string): nat {
    if s == "" then 0 else 10 * Value(Front(s)) + DigitValue(Last(s))
  }

  lemma DigitRoundTrip(n: nat)
    requires n < 10
    ensures DigitValue(Digit(n)) == n
  {
  }

  lemma {:induction false} DecimalRoundTrip(n: nat)
    ensures Value(Decimal(n)) == n
  {
    if n < 10 {
      DigitRoundTrip(n);
      assert Front(Decimal(n)) == "";
    } else {
      DecimalRoundTrip(n / 10);
      DigitRoundTrip(n % 10);
      assert Front(Decimal(n)) == Decimal(n / 10);
    }
  }

  lemma {:induction false} DecimalPlain(n: nat)
    ensures Plain(Decimal(n))
  {
    if n >= 10 {
      DecimalPlain(n / 10);
    }
  }
}
