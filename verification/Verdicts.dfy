/**
 What every line deserves, in terms of its words: the outcome of each segment,
 the verdict on the line, and the complaints printed on the way to it.
 */
module Verdicts {
  import opened Wrappers
  import opened Tokenizer
  import opened Parser
  import opened Printer
  import opened OpenQuotes

  // ----- one segment ------------------------------------------------------

  /** The message for a segment without a command. */
  predicate NoCommandMessage(last: bool, m: Message) {
    if last then m == MissingPipeCommand else m == EmptyPipe
  }

  /**
   What a segment with these words comes to. Words that break off at an operator
   without a file name are rejected for that operator's file. Arguments make a
   command, together with the files. Redirections alone are put off unless the
   segment is the last. Nothing at all is no command.
   */
  ghost predicate Merits(words: seq<string>, last: bool, o: Outcome) {
    && (words == [] ==> o.Bad? && NoCommandMessage(last, o.message))
    && (forall parts, op, rest ::
          AllProper(parts) && words == Spell(parts) + [Mark(op)] + rest && NoFile(rest) ==> o == Bad(MissingFile(op)))
    && (forall parts :: AllProper(parts) && words == Spell(parts) ==>
          if Arguments(parts) != [] then o == Parsed(Command(Arguments(parts), Files(parts)))
          else if parts != [] && !last then o == OnlyRedirects
          else o.Bad? && NoCommandMessage(last, o.message))
  }

  /** Words that break off are rejected for the operator at which they do. */
  lemma {:induction false} FillBreaksOff(c: Command, parts: seq<Part>, op: Operator, rest: seq<string>)
    requires AllProper(parts) && NoFile(rest)
    ensures Fill(c, Spell(parts) + [Mark(op)] + rest) == Missing(op)
    decreases |parts|
  {
    MarkIsOperator(op);
    if parts == [] {
      assert Spell(parts) + [Mark(op)] + rest == [Mark(op)] + rest;
      assert ([Mark(op)] + rest)[1..] == rest;
    } else {
      var p, more := parts[0], parts[1..];
      Assoc(SpellPart(p), Spell(more), [Mark(op)]);
      Assoc(SpellPart(p), Spell(more) + [Mark(op)], rest);
      FillPart(c, p, Spell(more) + [Mark(op)] + rest);
      FillBreaksOff(Command(c.argv + ArgumentOf(p), c.files + FileOf(p)), more, op, rest);
    }
  }

  lemma {:induction false} BuildFromNothing(parts: seq<Part>)
    ensures Build(EMPTY, parts) == Command(Arguments(parts), Files(parts))
  {
    assert [] + Arguments(parts) == Arguments(parts);
    assert map[] + Files(parts) == Files(parts);
  }

  lemma {:induction false} FilesOfRedirects(parts: seq<Part>)
    requires Arguments(parts) == [] && parts != []
    ensures Files(parts) != map[]
  {
    var p := parts[0];
    assert p.Redirect?;
    assert p.operator in FileOf(p) + Files(parts[1..]);
  }

  lemma {:induction false} SegmentMerits(text: string, last: bool)
    ensures Merits(Tokens(text), last, Judge(text, last))
  {
    var words, o := Tokens(text), Judge(text, last);
    forall parts, op, rest | AllProper(parts) && words == Spell(parts) + [Mark(op)] + rest && NoFile(rest)
      ensures o == Bad(MissingFile(op))
    {
      FillBreaksOff(EMPTY, parts, op, rest);
    }
    forall parts | AllProper(parts) && words == Spell(parts)
      ensures if Arguments(parts) != [] then o == Parsed(Command(Arguments(parts), Files(parts)))
              else if parts != [] && !last then o == OnlyRedirects
              else o.Bad? && NoCommandMessage(last, o.message)
    {
      FillBuilds(EMPTY, parts);
      BuildFromNothing(parts);
      if Arguments(parts) == [] && parts != [] {
        FilesOfRedirects(parts);
      }
    }
  }

  /** What the words merit, given how they are spelled. */
  function OutcomeOf(parts: seq<Part>, last: bool): Outcome {
    if Arguments(parts) != [] then Parsed(Command(Arguments(parts), Files(parts)))
    else if parts != [] && !last then OnlyRedirects
    else Bad(if last then MissingPipeCommand else EmptyPipe)
  }

  lemma {:induction false} MeritsOfParts(parts: seq<Part>, last: bool, o: Outcome)
    requires AllProper(parts) && Merits(Spell(parts), last, o)
    ensures o == OutcomeOf(parts, last)
  {
  }

  lemma {:induction false} MeritsOfBreak(parts: seq<Part>, op: Operator, rest: seq<string>, last: bool, o: Outcome)
    requires AllProper(parts) && NoFile(rest) && Merits(Spell(parts) + [Mark(op)] + rest, last, o)
    ensures o == Bad(MissingFile(op))
  {
  }

  /** Any words merit one outcome only. */
  lemma {:induction false} MeritsOne(words: seq<string>, last: bool, o: Outcome, o': Outcome)
    requires Merits(words, last, o) && Merits(words, last, o')
    ensures o == o'
  {
    var parts, rest := PartsOf(EMPTY, words);
    if rest == [] {
      assert Spell(parts) + [] == Spell(parts);
      MeritsOfParts(parts, last, o);
      MeritsOfParts(parts, last, o');
    } else {
      var op := Fill(EMPTY, words).operator;
      assert words == Spell(parts) + [Mark(op)] + rest[1..];
      MeritsOfBreak(parts, op, rest[1..], last, o);
      MeritsOfBreak(parts, op, rest[1..], last, o');
    }
  }

  // ----- the line ---------------------------------------------------------

  /** Each segment, trimmed, comes to what its words merit. */
  ghost predicate AllMerit(segments: seq<string>, os: seq<Outcome>) {
    && |os| == |segments|
    && forall i :: 0 <= i < |segments| ==> Merits(Tokens(Trim(segments[i])), i == |segments| - 1, os[i])
  }

  /**
   The verdict a line is due: nothing for a blank one, and otherwise what the
   outcomes of its segments call for: all commands, the leftmost error, or the
   error that was put off.
   */
  ghost predicate Due(line: string, v: Verdict) {
    if Blanks(line) then v == Ignored
    else exists os :: AllMerit(Split(line), os) && Reports(os, [], false, v)
  }

  lemma OutcomesMerit(segments: seq<string>)
    ensures AllMerit(segments, Outcomes(segments))
  {
    forall i | 0 <= i < |segments|
      ensures Merits(Tokens(Trim(segments[i])), i == |segments| - 1, Outcomes(segments)[i])
    {
      SegmentMerits(Trim(segments[i]), i == |segments| - 1);
    }
  }

  lemma AllMeritOne(segments: seq<string>, os: seq<Outcome>)
    requires AllMerit(segments, os)
    ensures os == Outcomes(segments)
  {
    OutcomesMerit(segments);
    forall i | 0 <= i < |segments| ensures os[i] == Outcomes(segments)[i] {
      MeritsOne(Tokens(Trim(segments[i])), i == |segments| - 1, os[i], Outcomes(segments)[i]);
    }
  }

  /** The outcomes of a line call for one verdict only. */
  lemma ReportsOne(os: seq<Outcome>, v: Verdict, v': Verdict)
    requires Reports(os, [], false, v) && Reports(os, [], false, v')
    ensures v == v'
  {
    match v
    case Ignored =>
    case Accepted(cs) =>
      forall i | 0 <= i < |os| && v'.Accepted? ensures v'.commands[i] == cs[i] {
        assert os[i] == Parsed(cs[0 + i]) && os[i] == Parsed(v'.commands[0 + i]);
      }
    case Rejected(m) =>
  }

  /** Every line gets the verdict it is due, and is due no other. */
  lemma {:induction false} VerdictOnEveryLine(line: string, v: Verdict)
    ensures Due(line, v) <==> v == Parse(line)
  {
    var segments := Split(line);
    ParseReports(line);
    OutcomesMerit(segments);
    if Due(line, v) && !Blanks(line) {
      var os :| AllMerit(segments, os) && Reports(os, [], false, v);
      AllMeritOne(segments, os);
      ReportsOne(os, v, Parse(line));
    }
  }

  // ----- complaints about quotes ------------------------------------------

  /** The words a segment's loop does not look at: those behind an operator whose file name is missing. */
  function Unread(words: seq<string>): seq<string>
    decreases |words|
  {
    if words == [] then []
    else if OperatorOf(words[0]).None? then Unread(words[1..])
    else if NoFile(words[1..]) then words[1..]
    else Unread(words[2..])
  }

  lemma {:induction false} UnreadBehind(parts: seq<Part>, op: Operator, rest: seq<string>)
    requires AllProper(parts) && NoFile(rest)
    ensures Unread(Spell(parts)) == [] && Unread(Spell(parts) + [Mark(op)] + rest) == rest
    decreases |parts|
  {
    MarkIsOperator(op);
    if parts == [] {
      assert Spell(parts) + [Mark(op)] + rest == [Mark(op)] + rest;
      assert ([Mark(op)] + rest)[1..] == rest;
    } else {
      var p, more := parts[0], parts[1..];
      var behind := Spell(more) + [Mark(op)] + rest;
      Assoc(SpellPart(p), Spell(more), [Mark(op)]);
      Assoc(SpellPart(p), Spell(more) + [Mark(op)], rest);
      UnreadPart(p, Spell(more));
      UnreadPart(p, behind);
      UnreadBehind(more, op, rest);
    }
  }

  lemma {:induction false} UnreadPart(p: Part, rest: seq<string>)
    requires Proper(p)
    ensures Unread(SpellPart(p) + rest) == Unread(rest)
  {
    var words := SpellPart(p) + rest;
    if p.Argument? {
      assert words[1..] == rest;
    } else {
      MarkIsOperator(p.operator);
      assert words[1..] == [p.file] + rest && words[2..] == rest;
    }
  }

  lemma {:induction false} OperatorComplains(text: string)
    requires Next(text).word.Some? && OperatorOf(Next(text).word.value).Some?
    ensures var t := Next(text);
            var u := Next(t.rest);
            if u.word.None? then EndsOpen(text) == OpenQuote(t.rest) && Unread(Tokens(text)) == []
            else if OperatorOf(u.word.value).Some? then Unread(Tokens(text)) != []
            else EndsOpen(text) == EndsOpen(u.rest) && Unread(Tokens(text)) == Unread(Tokens(u.rest))
  {
    var t := Next(text);
    TokensCons(text);
    assert Tokens(text)[1..] == Tokens(t.rest);
    if Next(t.rest).word.Some? {
      TokensCons(t.rest);
      assert Tokens(text)[2..] == Tokens(Next(t.rest).rest);
    }
  }

  lemma {:induction false} ArgumentComplains(text: string)
    requires Next(text).word.Some? && OperatorOf(Next(text).word.value).None?
    ensures var t := Next(text); EndsOpen(text) == EndsOpen(t.rest) && Unread(Tokens(text)) == Unread(Tokens(t.rest))
  {
    TokensCons(text);
    assert Tokens(text)[1..] == Tokens(Next(text).rest);
  }

  /** The word loop complains exactly when it reads all words of the segment and they end at an open quote. */
  lemma {:induction false} ComplainsExactlyWhen(text: string)
    ensures Complains(text) <==> EndsOpen(text) && Unread(Tokens(text)) == []
    decreases |text|
  {
    var t := Next(text);
    if t.word.None? {
      assert Tokens(text) == [];
    } else if OperatorOf(t.word.value).None? {
      ArgumentComplains(text);
      ComplainsExactlyWhen(t.rest);
    } else {
      OperatorComplains(text);
      var u := Next(t.rest);
      if u.word.Some? && OperatorOf(u.word.value).None? {
        ComplainsExactlyWhen(u.rest);
      }
    }
  }

  /** None of the first `n` outcomes is an error. */
  predicate NoneBad(os: seq<Outcome>, n: nat)
    requires n <= |os|
  {
    forall j :: 0 <= j < n ==> !os[j].Bad?
  }

  lemma NoneBadCons(o: Outcome, os: seq<Outcome>, n: nat)
    requires n <= |os|
    ensures NoneBad([o] + os, n + 1) <==> !o.Bad? && NoneBad(os, n)
  {
    if NoneBad([o] + os, n + 1) {
      assert ([o] + os)[0] == o;
      assert forall j :: 0 <= j < n ==> os[j] == ([o] + os)[j + 1];
    }
  }

  /** The segment complains: all its words are read, and they end at an open quote. */
  ghost predicate ReadToQuote(segment: string) {
    EndsOpen(Trim(segment)) && Unread(Tokens(Trim(segment))) == []
  }

  /** Which segments complain when they are looked at. */
  ghost function Noisy(segments: seq<string>): seq<bool> {
    seq(|segments|, i requires 0 <= i < |segments| => ReadToQuote(segments[i]))
  }

  /** How many of the first `n` are noisy, none with an error in front of it. */
  function Heard(noisy: seq<bool>, os: seq<Outcome>, n: nat): nat
    requires n <= |noisy| == |os|
  {
    if n == 0 then 0 else Heard(noisy, os, n - 1) + if noisy[n - 1] && NoneBad(os, n - 1) then 1 else 0
  }

  lemma {:induction false} HeardCons(b: bool, o: Outcome, noisy: seq<bool>, os: seq<Outcome>, n: nat)
    requires n <= |noisy| == |os|
    ensures Heard([b] + noisy, [o] + os, n + 1) == (if b then 1 else 0) + if o.Bad? then 0 else Heard(noisy, os, n)
    decreases n
  {
    if n == 0 {
      assert Heard([b] + noisy, [o] + os, 0) == 0;
    } else {
      HeardCons(b, o, noisy, os, n - 1);
      NoneBadCons(o, os, n - 1);
      assert ([b] + noisy)[n] == noisy[n - 1];
    }
  }

  lemma NoisyCons(first: string, more: seq<string>)
    ensures Noisy([first] + more) == [Complains(Trim(first))] + Noisy(more)
  {
    ComplainsExactlyWhen(Trim(first));
  }

  lemma {:induction false} ComplaintsAreHeard(segments: seq<string>)
    ensures Complaints(segments) == Heard(Noisy(segments), Outcomes(segments), |segments|)
    decreases |segments|
  {
    if segments != [] {
      var first, more := segments[0], segments[1..];
      assert segments == [first] + more;
      ComplaintsAreHeard(more);
      NoisyCons(first, more);
      OutcomesCons(first, more);
      HeardCons(Complains(Trim(first)), Judge(Trim(first), more == []), Noisy(more), Outcomes(more), |more|);
    }
  }

  lemma NoisyOfTrimLast(r: seq<string>)
    requires r != []
    ensures Noisy(TrimLast(r)) == Noisy(r)
  {
    TrimAfterTrimRight(r[|r| - 1]);
  }

  /**
   A blank line is passed over in silence. On any other there are as many
   complaints as segments, up to the first error, whose words are all read and
   end at an open quote.
   */
  lemma {:induction false} ComplaintsOnEveryLine(line: string)
    ensures var segments := Split(line);
            Diagnosed(line) == if Blanks(line) then 0 else Heard(Noisy(segments), Outcomes(segments), |segments|)
  {
    BlankSkips(line);
    if !Blanks(line) {
      SplitTrimmed(line);
      ComplaintsAreHeard(TrimLast(Split(line)));
      NoisyOfTrimLast(Split(line));
      OutcomesOfTrimLast(Split(line));
    }
  }
}
