/**
 Pipelines: how a line is cut at its bars, how each piece becomes a command,
 and which of several errors is reported.
 */
module Parser {
  import opened Wrappers
  import opened Tokenizer

  datatype Operator = Input | Output | Error

  /** The parser's own error messages; the tokenizer's complaint about an open quote is counted apart. */
  datatype Message = EmptyPipe | MissingPipeCommand | MissingFile(operator: Operator)

  datatype Command = Command(argv: seq<string>, files: map<Operator, string>)

  /** The result of parsing: nothing for a blank line, the commands, or the message the line is rejected with. */
  datatype Verdict = Ignored | Accepted(commands: seq<Command>) | Rejected(message: Message)

  const EMPTY := Command([], map[])

  function OperatorOf(word: string): Option<Operator> {
    if word == "<" then Some(Input)
    else if word == ">" then Some(Output)
    else if word == "2>" then Some(Error)
    else None
  }

  function TrimRight(s: string): (r: string)
    ensures r <= s
    ensures r != "" ==> !IsBlank(r[|r| - 1])
  {
    if s != "" && IsBlank(s[|s| - 1]) then TrimRight(s[..|s| - 1]) else s
  }

  function Trim(s: string): string {
    TrimRight(SkipBlanks(s))
  }

  function FirstBar(s: string): (i: nat)
    ensures i <= |s| && (i < |s| ==> s[i] == '|')
    ensures '|' !in s[..i]
  {
    if s == "" || s[0] == '|' then 0 else 1 + FirstBar(s[1..])
  }

  /** The pieces between the bars; quotes do not protect a bar. */
  function Split(s: string): (r: seq<string>)
    ensures r != []
    decreases |s|
  {
    var i := FirstBar(s);
    if i == |s| then [s] else [s[..i]] + Split(s[i + 1..])
  }

  datatype Filled = Filled(command: Command) | Missing(operator: Operator)

  /** Sorts the words of one segment into arguments and redirections. */
  function Fill(c: Command, words: seq<string>): Filled
    decreases |words|
  {
    if words == [] then Filled(c)
    else
      match OperatorOf(words[0])
      case None => Fill(c.(argv := c.argv + [words[0]]), words[1..])
      case Some(op) =>
        if |words| == 1 || OperatorOf(words[1]).Some? then Missing(op)
        else Fill(c.(files := c.files[op := words[1]]), words[2..])
  }

  /** What one segment contributes: a command, nothing but redirections (reported later), or an error. */
  datatype Outcome = Parsed(command: Command) | OnlyRedirects | Bad(message: Message)

  function NoCommand(last: bool): Outcome {
    Bad(if last then MissingPipeCommand else EmptyPipe)
  }

  function Classify(filled: Filled, last: bool): Outcome {
    match filled
    case Missing(op) => Bad(MissingFile(op))
    case Filled(c) =>
      if c.argv != [] then Parsed(c)
      else if !last && c.files != map[] then OnlyRedirects
      else NoCommand(last)
  }

  function Judge(trimmed: string, last: bool): Outcome {
    if trimmed == "" then NoCommand(last) else Classify(Fill(EMPTY, Tokens(trimmed)), last)
  }

  function Outcomes(segments: seq<string>): seq<Outcome> {
    seq(|segments|, i requires 0 <= i < |segments| => Judge(Trim(segments[i]), i == |segments| - 1))
  }

  /** Goes through the outcomes from the left: the first hard error ends it, bare redirections are remembered. */
  function Walk(os: seq<Outcome>, commands: seq<Command>, deferred: bool): Verdict {
    if os == [] then
      if commands == [] then Ignored else if deferred then Rejected(EmptyPipe) else Accepted(commands)
    else
      match os[0]
      case Parsed(c) => Walk(os[1..], commands + [c], deferred)
      case OnlyRedirects => Walk(os[1..], commands, true)
      case Bad(m) => Rejected(m)
  }

  function Parse(line: string): Verdict {
    if SkipBlanks(line) == "" then Ignored else Walk(Outcomes(Split(TrimRight(line))), [], false)
  }

  // ----- complaints about quotes ------------------------------------------

  /** Whether the word loop of a segment runs into an open quote before it ends or fails. */
  predicate Complains(text: string)
    decreases |text|
  {
    var t := Next(text);
    if t.word.None? then OpenQuote(text)
    else if OperatorOf(t.word.value).None? then Complains(t.rest)
    else
      var u := Next(t.rest);
      if u.word.None? then OpenQuote(t.rest) else OperatorOf(u.word.value).None? && Complains(u.rest)
  }

  /** How many complaints are printed on the way through the segments, up to the first hard error. */
  function Complaints(segments: seq<string>): nat {
    if segments == [] then 0
    else
      (if Complains(Trim(segments[0])) then 1 else 0)
      + if Judge(Trim(segments[0]), |segments| == 1).Bad? then 0 else Complaints(segments[1..])
  }

  /** The complaints about a whole line; a rejected line's message follows them. */
  function Diagnosed(line: string): nat {
    if SkipBlanks(line) == "" then 0 else Complaints(Split(TrimRight(line)))
  }

  // ----- trimming and splitting -------------------------------------------

  lemma {:induction false} BlankSkips(s: string)
    ensures SkipBlanks(s) == "" <==> Blanks(s)
  {
    if s != "" {
      BlankSkips(s[1..]);
      assert s == [s[0]] + s[1..];
    }
  }

  lemma {:induction false} SkipBlanksIsSuffix(s: string)
    ensures s[|s| - |SkipBlanks(s)|..] == SkipBlanks(s)
  {
    if s != "" && IsBlank(s[0]) {
      SkipBlanksIsSuffix(s[1..]);
    }
  }

  lemma {:induction false} TrimRightKeepsFront(gap: string, core: string)
    requires core != "" && !IsBlank(core[0])
    ensures TrimRight(gap + core) == gap + TrimRight(core)
    decreases |core|
  {
    if IsBlank(core[|core| - 1]) {
      assert (gap + core)[..|gap + core| - 1] == gap + core[..|core| - 1];
      TrimRightKeepsFront(gap, core[..|core| - 1]);
    }
  }

  lemma {:induction false} TrimRightDrops(s: string, gap: string)
    requires Blanks(gap) && (s == "" || !IsBlank(s[|s| - 1]))
    ensures TrimRight(s + gap) == s
  {
    if gap == "" {
      assert s + gap == s;
    } else {
      assert (s + gap)[..|s + gap| - 1] == s + gap[..|gap| - 1];
      TrimRightDrops(s, gap[..|gap| - 1]);
    }
  }

  lemma {:induction false} TrimRightIs(s: string)
    ensures Blanks(s[|TrimRight(s)|..])
  {
    if s != "" && IsBlank(s[|s| - 1]) {
      TrimRightIs(s[..|s| - 1]);
    }
  }

  /** Trimming is idempotent under the trim of the whole line that comes first. */
  lemma {:induction false} TrimAfterTrimRight(s: string)
    ensures Trim(TrimRight(s)) == Trim(s)
  {
    if s != "" && IsBlank(s[|s| - 1]) {
      var init := s[..|s| - 1];
      TrimAfterTrimRight(init);
      SkipInit(s);
    }
  }

  lemma {:induction false} SkipInit(s: string)
    requires s != "" && IsBlank(s[|s| - 1])
    ensures TrimRight(SkipBlanks(s[..|s| - 1])) == TrimRight(SkipBlanks(s))
  {
    var init := s[..|s| - 1];
    if IsBlank(s[0]) && |s| > 1 {
      assert init[1..] == s[1..][..|s| - 2];
      SkipInit(s[1..]);
    } else if !IsBlank(s[0]) {
      assert SkipBlanks(s) == s && SkipBlanks(init) == init;
    }
  }

  lemma {:induction false} BarInFront(a: string, b: string)
    requires '|' !in a
    ensures FirstBar(a + "|" + b) == |a|
  {
    var s := a + "|" + b;
    if a != "" {
      assert s[1..] == a[1..] + "|" + b;
      BarInFront(a[1..], b);
    }
  }

  lemma {:induction false} SplitCons(a: string, b: string)
    requires '|' !in a
    ensures Split(a + "|" + b) == [a] + Split(b)
  {
    BarInFront(a, b);
    assert (a + "|" + b)[..|a|] == a && (a + "|" + b)[|a| + 1..] == b;
  }

  lemma {:induction false} NoBar(s: string)
    requires '|' !in s
    ensures FirstBar(s) == |s|
  {
    if s != "" {
      NoBar(s[1..]);
    }
  }

  lemma {:induction false} TrimRightBehindBar(a: string, b: string)
    ensures TrimRight(a + "|" + b) == a + "|" + TrimRight(b)
  {
    if b != "" && IsBlank(b[|b| - 1]) {
      assert (a + "|" + b)[..|a + "|" + b| - 1] == a + "|" + b[..|b| - 1];
      TrimRightBehindBar(a, b[..|b| - 1]);
    }
  }

  function TrimLast(segments: seq<string>): seq<string>
    requires segments != []
  {
    segments[..|segments| - 1] + [TrimRight(segments[|segments| - 1])]
  }

  lemma TrimLastCons(a: string, r: seq<string>)
    requires r != []
    ensures TrimLast([a] + r) == [a] + TrimLast(r)
  {
  }

  /** Trimming the line first only trims its last segment. */
  lemma {:induction false} SplitTrimmed(s: string)
    ensures Split(TrimRight(s)) == TrimLast(Split(s))
    decreases |s|
  {
    var i := FirstBar(s);
    if i == |s| {
      TrimmedHasNoBar(s);
    } else {
      var a, b := s[..i], s[i + 1..];
      assert s == a + "|" + b;
      SplitTrimmed(b);
      TrimRightBehindBar(a, b);
      SplitCons(a, TrimRight(b));
      TrimLastCons(a, Split(b));
    }
  }

  lemma {:induction false} TrimmedHasNoBar(s: string)
    requires FirstBar(s) == |s|
    ensures Split(TrimRight(s)) == [TrimRight(s)]
  {
    assert s[..|s|] == s;
    NoBar(TrimRight(s));
  }

  function Bars(s: string): nat {
    if s == "" then 0 else (if s[0] == '|' then 1 else 0) + Bars(s[1..])
  }

  lemma {:induction false} BarsConcat(a: string, b: string)
    ensures Bars(a + b) == Bars(a) + Bars(b)
  {
    if a == "" {
      assert a + b == b;
    } else {
      assert (a + b)[1..] == a[1..] + b;
      BarsConcat(a[1..], b);
    }
  }

  lemma {:induction false} NoBars(s: string)
    requires '|' !in s
    ensures Bars(s) == 0
  {
    if s != "" {
      NoBars(s[1..]);
    }
  }

  lemma {:induction false} SplitCountsBars(s: string)
    ensures |Split(s)| == Bars(s) + 1
    decreases |s|
  {
    var i := FirstBar(s);
    NoBars(s[..i]);
    if i == |s| {
      assert s[..i] == s;
    } else {
      assert s == s[..i] + s[i..];
      BarsConcat(s[..i], s[i..]);
      SplitCountsBars(s[i + 1..]);
    }
  }

  // ----- the verdict ------------------------------------------------------

  /** Position `i` holds the leftmost hard error. */
  ghost predicate FirstError(os: seq<Outcome>, i: nat) {
    i < |os| && os[i].Bad? && forall j :: 0 <= j < i ==> !os[j].Bad?
  }

  ghost predicate NoError(os: seq<Outcome>) {
    forall j :: 0 <= j < |os| ==> !os[j].Bad?
  }

  /** What the walk reports, in terms of the outcomes of all segments. */
  ghost predicate Reports(os: seq<Outcome>, commands: seq<Command>, deferred: bool, v: Verdict) {
    match v
    case Ignored => false
    case Accepted(cs) =>
      && !deferred && |cs| == |commands| + |os| && cs[..|commands|] == commands
      && forall i :: 0 <= i < |os| ==> os[i] == Parsed(cs[|commands| + i])
    case Rejected(m) =>
      || (exists i: nat :: FirstError(os, i) && os[i].message == m)
      || (m == EmptyPipe && NoError(os) && (deferred || exists i :: 0 <= i < |os| && os[i].OnlyRedirects?))
  }

  /** The last segment is a command or an error, never deferred: so there is always something to report. */
  ghost predicate Conclusive(os: seq<Outcome>, commands: seq<Command>) {
    if os == [] then commands != [] else !os[|os| - 1].OnlyRedirects?
  }

  lemma {:induction false} WalkReports(os: seq<Outcome>, commands: seq<Command>, deferred: bool)
    requires Conclusive(os, commands)
    ensures Reports(os, commands, deferred, Walk(os, commands, deferred))
    decreases |os|
  {
    if os != [] {
      var v := Walk(os, commands, deferred);
      assert os == [os[0]] + os[1..];
      match os[0]
      case Bad(m) => assert FirstError(os, 0);
      case Parsed(c) =>
        WalkReports(os[1..], commands + [c], deferred);
        ReportsCons(os[0], os[1..], commands, commands + [c], deferred, deferred, v);
      case OnlyRedirects =>
        WalkReports(os[1..], commands, true);
        ReportsCons(os[0], os[1..], commands, commands, deferred, true, v);
    }
  }

  lemma ReportsCons(first: Outcome, os: seq<Outcome>, cs: seq<Command>, cs': seq<Command>,
                    d: bool, d': bool, v: Verdict)
    requires Reports(os, cs', d', v)
    requires match first
             case Parsed(c) => cs' == cs + [c] && d' == d
             case OnlyRedirects => cs' == cs && d'
             case Bad(_) => false
    ensures Reports([first] + os, cs, d, v)
  {
    var all := [first] + os;
    assert forall i :: 0 <= i < |os| ==> all[i + 1] == os[i];
    match v
    case Ignored =>
    case Accepted(acc) =>
      assert acc[|cs|] == cs'[|cs|];
      assert acc[..|cs|] == acc[..|cs'|][..|cs|];
    case Rejected(m) =>
      if i: nat :| FirstError(os, i) && os[i].message == m {
        assert FirstError(all, i + 1);
      } else {
        assert NoError(all);
        if !d {
          if first.OnlyRedirects? {
            assert all[0].OnlyRedirects?;
          } else {
            var i :| 0 <= i < |os| && os[i].OnlyRedirects?;
            assert all[i + 1].OnlyRedirects?;
          }
        }
      }
  }

  lemma {:induction false} OutcomesTrimmed(s: string)
    ensures Outcomes(Split(TrimRight(s))) == Outcomes(Split(s))
  {
    SplitTrimmed(s);
    OutcomesOfTrimLast(Split(s));
  }

  lemma OutcomesOfTrimLast(r: seq<string>)
    requires r != []
    ensures Outcomes(TrimLast(r)) == Outcomes(r)
  {
    TrimAfterTrimRight(r[|r| - 1]);
  }

  lemma OutcomesCons(segment: string, rest: seq<string>)
    ensures Outcomes([segment] + rest) == [Judge(Trim(segment), rest == [])] + Outcomes(rest)
  {
  }

  lemma OutcomesConclude(segments: seq<string>)
    requires segments != []
    ensures Conclusive(Outcomes(segments), [])
    ensures forall i :: 0 <= i < |segments| && Outcomes(segments)[i].Parsed? ==>
              Outcomes(segments)[i].command.argv != []
  {
  }

  /**
   The verdict on every line. Blank lines are ignored, and only those: the exit
   taken when no command was counted is never reached. Any other line is either
   accepted with one command more than it has bars, each the outcome of its own
   segment, or rejected with one message: that of the leftmost hard error, or
   the deferred one when a segment with nothing but redirections is the only fault.
   */
  lemma {:induction false} ParseReports(line: string)
    ensures Parse(line).Ignored? <==> Blanks(line)
    ensures !Blanks(line) ==> Reports(Outcomes(Split(line)), [], false, Parse(line))
    ensures Parse(line).Accepted? ==> |Parse(line).commands| == Bars(line) + 1
    ensures forall c :: Parse(line).Accepted? && c in Parse(line).commands ==> c.argv != []
  {
    BlankSkips(line);
    if !Blanks(line) {
      var os := Outcomes(Split(line));
      OutcomesTrimmed(line);
      OutcomesConclude(Split(line));
      WalkReports(os, [], false);
      SplitCountsBars(line);
      if Parse(line).Accepted? {
        forall i | 0 <= i < |os| ensures Parse(line).commands[i].argv != [] {
          assert os[i] == Parsed(Parse(line).commands[i]);
        }
      }
    }
  }
}
