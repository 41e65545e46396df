/** Which pipelines a line can express: exactly those the canonical printer can write and the parser reads back. */
module RoundTrip {
  import opened Tokenizer
  import opened Parser
  import opened Printer
  import opened LineParser

  predicate PrintableWord(word: string) {
    OperatorOf(word).None? && '|' !in word
  }

  /** Commands that a line can express. */
  predicate Printable(c: Command) {
    && c.argv != []
    && (forall i :: 0 <= i < |c.argv| ==> PrintableWord(c.argv[i]))
    && (forall op :: op in c.files ==> PrintableWord(c.files[op]))
  }

  // ----- printing, then parsing -------------------------------------------

  lemma ShowIsAWord(word: string) returns (ps: seq<Piece>)
    ensures ps != [] && Source(ps) == Show(word) && Value(ps) == word
    ensures forall i :: 0 <= i < |ps| ==> Tidy(ps[i])
  {
    if word == "<" || word == ">" {
      ps := [Bare(word[0])] + [];
      Cons(Bare(word[0]), []);
    } else if word == "2>" {
      ps := [Bare('2')] + ([Bare('>')] + []);
      Cons(Bare('>'), []);
      Cons(Bare('2'), [Bare('>')] + []);
    } else {
      ps := SingleQuoteIsAWord(word);
    }
  }

  /** Words that end a segment safely and can follow another word. */
  ghost predicate Closed(ws: seq<Written>) {
    && Readable(ws) && (ws != [] ==> Gap(ws) == " ")
    && (ws != [] ==> !EndsInEscapedBlank(ws[|ws| - 1].pieces) && !EndsDangling(ws[|ws| - 1].pieces))
  }

  lemma {:induction false} ClosedCons(ps: seq<Piece>, rest: seq<Written>)
    requires Closed(rest) && ps != [] && forall i :: 0 <= i < |ps| ==> Tidy(ps[i])
    ensures Closed([Written(" ", ps)] + rest)
  {
    var ws := [Written(" ", ps)] + rest;
    assert ws[1..] == rest;
    assert Word(ps, Gap(rest));
    assert ws[|ws| - 1].pieces == if rest == [] then ps else rest[|rest| - 1].pieces;
  }

  /** The printed words are readable words with those values. */
  lemma {:induction false} ShowAllIsText(words: seq<string>) returns (ws: seq<Written>)
    ensures Text(ws) == ShowAll(words) && Values(ws) == words && |ws| == |words| && Closed(ws)
  {
    if words == [] {
      ws := [];
    } else {
      var ps := ShowIsAWord(words[0]);
      var rest := ShowAllIsText(words[1..]);
      TextCons(Written(" ", ps), rest);
      ClosedCons(ps, rest);
      ws := [Written(" ", ps)] + rest;
    }
  }

  lemma {:induction false} SingleQuoteBars(w: string)
    requires '|' !in w
    ensures '|' !in SingleBodyText(w)
  {
    if w != "" {
      SingleQuoteBars(w[1..]);
    }
  }

  predicate Barless(words: seq<string>) {
    forall i :: 0 <= i < |words| ==> '|' !in words[i]
  }

  lemma {:induction false} ShowAllBars(words: seq<string>)
    requires Barless(words)
    ensures '|' !in ShowAll(words)
  {
    if words != [] {
      SingleQuoteBars(words[0]);
      ShowAllBars(words[1..]);
    }
  }

  lemma {:induction false} ArgumentPartsProper(argv: seq<string>)
    requires forall i :: 0 <= i < |argv| ==> PrintableWord(argv[i])
    ensures AllProper(ArgumentParts(argv))
    ensures Barless(Spell(ArgumentParts(argv)))
  {
    ArgumentPartsBuild(argv);
    if argv != [] {
      ArgumentPartsProper(argv[1..]);
    }
  }

  lemma {:induction false} RedirectProper(c: Command, op: Operator)
    requires Printable(c)
    ensures AllProper(RedirectTo(c, op))
    ensures Barless(Spell(RedirectTo(c, op)))
  {
    if op in c.files {
      PartsCons(Redirect(op, c.files[op]), []);
      assert [Redirect(op, c.files[op])] + [] == RedirectTo(c, op);
    }
  }

  lemma {:induction false} ProperConcat(a: seq<Part>, b: seq<Part>)
    requires AllProper(a) && AllProper(b) && Barless(Spell(a)) && Barless(Spell(b))
    ensures AllProper(a + b) && Barless(Spell(a + b))
  {
    PartsConcat(a, b);
  }

  lemma PartsForProper(c: Command)
    requires Printable(c)
    ensures AllProper(PartsFor(c)) && Barless(Spell(PartsFor(c)))
  {
    var i, o, e := RedirectTo(c, Input), RedirectTo(c, Output), RedirectTo(c, Error);
    ArgumentPartsProper(c.argv);
    RedirectProper(c, Input);
    RedirectProper(c, Output);
    RedirectProper(c, Error);
    ProperConcat(o, e);
    ProperConcat(i, o + e);
    ProperConcat(ArgumentParts(c.argv), i + (o + e));
  }

  lemma PartsForSpells(c: Command)
    requires Printable(c)
    ensures Spell(PartsFor(c)) != [] && Arguments(PartsFor(c)) == c.argv
    ensures '|' !in ShowAll(Spell(PartsFor(c)))
  {
    PartsForBuild(c);
    PartsForProper(c);
    ShowAllBars(Spell(PartsFor(c)));
    assert Build(EMPTY, PartsFor(c)).argv == Arguments(PartsFor(c));
    assert PartsFor(c) != [];
  }

  lemma {:induction false} ClosedIsSpelled(ws: seq<Written>, parts: seq<Part>)
    requires ws != [] && Closed(ws) && AllProper(parts) && Values(ws) == Spell(parts) && Arguments(parts) != []
    requires '|' !in Text(ws)
    ensures Spelled(Stage(ws, "", parts)) && Segment(Stage(ws, "", parts)) == Text(ws)
  {
    var st := Stage(ws, "", parts);
    NothingBehind(Text(ws));
    assert Segment(st) == Text(ws) && Blanks(st.tail);
  }

  lemma NothingBehind(s: string)
    ensures s + "" == s
  {
  }

  lemma StageFor(c: Command) returns (st: Stage)
    requires Printable(c)
    ensures Spelled(st) && Segment(st) == ShowAll(Spell(PartsFor(c))) && st.parts == PartsFor(c)
  {
    PartsForProper(c);
    PartsForSpells(c);
    var ws := ShowAllIsText(Spell(PartsFor(c)));
    st := Stage(ws, "", PartsFor(c));
    ClosedIsSpelled(ws, PartsFor(c));
  }

  ghost predicate Drafted(st: Stage, c: Command) {
    Spelled(st) && st.parts == PartsFor(c) && Segment(st) == ShowAll(Spell(PartsFor(c)))
  }

  lemma {:induction false} StagesFor(cs: seq<Command>) returns (stages: seq<Stage>)
    requires forall i :: 0 <= i < |cs| ==> Printable(cs[i])
    ensures |stages| == |cs| && forall i :: 0 <= i < |cs| ==> Drafted(stages[i], cs[i])
  {
    if cs == [] {
      stages := [];
    } else {
      var st := StageFor(cs[0]);
      var rest := StagesFor(cs[1..]);
      stages := [st] + rest;
    }
  }

  lemma DraftsMean(stages: seq<Stage>, cs: seq<Command>)
    requires |stages| == |cs| && forall i :: 0 <= i < |cs| ==> Drafted(stages[i], cs[i])
    ensures Meant(stages) == cs && Segments(stages) == Printed(cs)
  {
    forall i | 0 <= i < |cs| ensures Meant(stages)[i] == cs[i] && Segments(stages)[i] == Printed(cs)[i] {
      assert Drafted(stages[i], cs[i]);
      PartsForBuild(cs[i]);
    }
  }

  /** Parsing undoes the canonical printer. */
  lemma ParseUndoesPrint(cs: seq<Command>)
    requires cs != [] && forall i :: 0 <= i < |cs| ==> Printable(cs[i])
    ensures Parse(Print(cs)) == Accepted(cs)
  {
    var stages := StagesFor(cs);
    DraftsMean(stages, cs);
    assert forall i :: 0 <= i < |stages| ==> Drafted(stages[i], cs[i]) ==> Spelled(stages[i]);
    ParseReadsPipeline(stages);
  }

  // ----- whatever is accepted can be printed ------------------------------

  lemma {:induction false} SkipBars(s: string)
    requires '|' !in s
    ensures '|' !in SkipBlanks(s)
  {
    if s != "" && IsBlank(s[0]) {
      SkipBars(s[1..]);
    }
  }

  lemma {:induction false} TokensBars(s: string)
    requires '|' !in s
    ensures Barless(Tokens(s))
    decreases |s|
  {
    var t := Next(s);
    if t.word.Some? {
      var p := SkipBlanks(s);
      SkipBars(s);
      ScanAddsNothing(Outside, p, '|');
      TokensBars(t.rest);
    }
  }

  lemma {:induction false} SplitBars(s: string)
    ensures Barless(Split(s))
    decreases |s|
  {
    if FirstBar(s) < |s| {
      SplitBars(s[FirstBar(s) + 1..]);
    } else {
      assert s[..|s|] == s;
    }
  }

  lemma {:induction false} ProperParts(parts: seq<Part>)
    requires AllProper(parts) && Barless(Spell(parts))
    ensures forall i :: 0 <= i < |Arguments(parts)| ==> PrintableWord(Arguments(parts)[i])
    ensures forall op :: op in Files(parts) ==> PrintableWord(Files(parts)[op])
  {
    if parts != [] {
      var p, rest := parts[0], parts[1..];
      assert Spell(parts)[|SpellPart(p)|..] == Spell(rest);
      ProperParts(rest);
      assert PrintableWord(if p.Argument? then p.word else p.file) by {
        assert Spell(parts)[|SpellPart(p)| - 1] == if p.Argument? then p.word else p.file;
      }
    }
  }

  lemma JudgedIsPrintable(segment: string, last: bool)
    requires '|' !in segment && Judge(Trim(segment), last).Parsed?
    ensures Printable(Judge(Trim(segment), last).command)
  {
    SkipBars(segment);
    TokensBars(Trim(segment));
    var parts, rest := PartsOf(EMPTY, Tokens(Trim(segment)));
    assert Spell(parts) + [] == Spell(parts);
    ProperParts(parts);
  }

  lemma {:induction false} AcceptedIsPrintable(line: string)
    requires Parse(line).Accepted?
    ensures var cs := Parse(line).commands; cs != [] && forall i :: 0 <= i < |cs| ==> Printable(cs[i])
  {
    ParseReports(line);
    var cs, segments := Parse(line).commands, Split(line);
    SplitBars(line);
    forall i | 0 <= i < |cs| ensures Printable(cs[i]) {
      assert Outcomes(segments)[i] == Parsed(cs[i]);
      JudgedIsPrintable(segments[i], i == |segments| - 1);
    }
  }

  /**
   The pipelines some line expresses are exactly the printable ones: at least
   one command, each with an argument, no word that is an operator, and no bar
   inside a word, however it is quoted.
   */
  lemma ExpressibleIsPrintable(cs: seq<Command>)
    ensures (exists line :: Parse(line) == Accepted(cs))
            <==> cs != [] && forall i :: 0 <= i < |cs| ==> Printable(cs[i])
  {
    if line :| Parse(line) == Accepted(cs) {
      AcceptedIsPrintable(line);
    }
    if cs != [] && forall i :: 0 <= i < |cs| ==> Printable(cs[i]) {
      ParseUndoesPrint(cs);
    }
  }

  // ----- the fixed buffers ------------------------------------------------

  predicate Short(words: seq<string>) {
    forall i :: 0 <= i < |words| ==> |words[i]| < BUFFER_SIZE
  }

  /** Commands with at most 99 arguments whose words are shorter than the token buffer. */
  predicate Fitting(c: Command) {
    && |c.argv| < MAX_TOKENS && Short(c.argv)
    && forall op :: op in c.files ==> |c.files[op]| < BUFFER_SIZE
  }

  lemma {:induction false} WordsOfTextFit(ws: seq<Written>)
    requires Readable(ws) && Short(Values(ws))
    ensures WordsFit(Text(ws))
    decreases |ws|
  {
    if ws != [] {
      NextBehind(ws, "");
      assert Text(ws) + "" == Text(ws) && Text(ws[1..]) + "" == Text(ws[1..]);
      assert |Values(ws)[0]| < BUFFER_SIZE;
      assert Values(ws)[1..] == Values(ws[1..]);
      WordsOfTextFit(ws[1..]);
    }
  }

  lemma {:induction false} CountArguments(parts: seq<Part>)
    requires AllProper(parts)
    ensures ArgumentCount(Spell(parts)) == |Arguments(parts)|
    decreases |parts|
  {
    if parts != [] {
      var p, rest := parts[0], parts[1..];
      CountArguments(rest);
      if p.Argument? {
        assert Spell(parts)[1..] == Spell(rest);
      } else {
        MarkIsOperator(p.operator);
        assert Spell(parts)[2..] == Spell(rest);
      }
    }
  }

  lemma {:induction false} ShortConcat(a: seq<Part>, b: seq<Part>)
    requires Short(Spell(a)) && Short(Spell(b))
    ensures Short(Spell(a + b))
  {
    PartsConcat(a, b);
  }

  lemma {:induction false} ShortParts(c: Command)
    requires Fitting(c)
    ensures Short(Spell(PartsFor(c)))
  {
    var i, o, e := RedirectTo(c, Input), RedirectTo(c, Output), RedirectTo(c, Error);
    ArgumentPartsBuild(c.argv);
    ShortRedirect(c, Input);
    ShortRedirect(c, Output);
    ShortRedirect(c, Error);
    ShortConcat(o, e);
    ShortConcat(i, o + e);
    ShortConcat(ArgumentParts(c.argv), i + (o + e));
  }

  lemma {:induction false} ShortRedirect(c: Command, op: Operator)
    requires Fitting(c)
    ensures Short(Spell(RedirectTo(c, op)))
  {
    if op in c.files {
      PartsCons(Redirect(op, c.files[op]), []);
      assert [Redirect(op, c.files[op])] + [] == RedirectTo(c, op);
    }
  }

  lemma PrintedSegmentFits(c: Command)
    requires Printable(c) && Fitting(c)
    ensures SegmentFits(Trim(ShowAll(Spell(PartsFor(c)))))
  {
    PartsForSpells(c);
    PartsForProper(c);
    ShortParts(c);
    CountArguments(PartsFor(c));
    var ws := ShowAllIsText(Spell(PartsFor(c)));
    assert Text(ws) + "" == Text(ws);
    TrimKeepsText(ws, "");
    FlushKeepsWords(ws);
    WordsOfTextFit(Flush(ws));
  }

  ghost predicate AllFit(segments: seq<string>) {
    forall i :: 0 <= i < |segments| ==> SegmentFits(Trim(segments[i]))
  }

  lemma {:induction false} AllFitLineFits(segments: seq<string>)
    requires AllFit(segments)
    ensures LineFits(segments)
  {
    if segments != [] {
      AllFitLineFits(segments[1..]);
    }
  }

  lemma PrintedBars(cs: seq<Command>)
    requires cs != [] && forall i :: 0 <= i < |cs| ==> Printable(cs[i])
    ensures Split(Print(cs)) == Printed(cs)
  {
    forall i | 0 <= i < |cs| ensures '|' !in Printed(cs)[i] {
      PartsForSpells(cs[i]);
    }
    SplitUndoesJoin(Printed(cs));
  }

  lemma AllPrintedFit(cs: seq<Command>)
    requires forall i :: 0 <= i < |cs| ==> Printable(cs[i]) && Fitting(cs[i])
    ensures AllFit(Printed(cs))
  {
    forall i | 0 <= i < |cs| ensures SegmentFits(Trim(Printed(cs)[i])) {
      PrintedSegmentFits(cs[i]);
    }
  }

  lemma TrimLastFits(segments: seq<string>)
    requires segments != [] && AllFit(segments)
    ensures AllFit(TrimLast(segments))
  {
    TrimAfterTrimRight(segments[|segments| - 1]);
  }

  /** The parser's fixed buffers are large enough for whatever is printed from fitting commands. */
  lemma PrintedFits(cs: seq<Command>)
    requires cs != [] && forall i :: 0 <= i < |cs| ==> Printable(cs[i]) && Fitting(cs[i])
    ensures LineFits(Split(TrimRight(Print(cs))))
  {
    PrintedBars(cs);
    SplitTrimmed(Print(cs));
    AllPrintedFit(cs);
    TrimLastFits(Printed(cs));
    AllFitLineFits(TrimLast(Printed(cs)));
  }
}
