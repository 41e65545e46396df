/** What becomes of a segment with an unmatched quote: when it is still accepted, and as what. */
module OpenQuotes {
  import opened Tokenizer
  import opened Parser
  import opened Printer

  // ----- an open quote stays open under trimming --------------------------

  /** A blank more at the end cannot open a quote. */
  lemma {:induction false} BlankOpensNothing(mode: Mode, s: string, b: char)
    requires IsBlank(b) && Scan(mode, s).mode.Outside?
    ensures Scan(mode, s + [b]).mode.Outside?
    decreases |s|, 1
  {
    var t := s + [b];
    if s != "" && !(mode.Outside? && IsBlank(s[0])) {
      assert t[1..] == s[1..] + [b];
      match mode
      case Outside => BlankOutside(s, b);
      case InSingle => BlankOpensNothing(if s[0] == '\'' then Outside else InSingle, s[1..], b);
      case InDouble => BlankInDouble(s, b);
    }
  }

  lemma {:induction false} BlankOutside(s: string, b: char)
    requires IsBlank(b) && s != "" && !IsBlank(s[0]) && Scan(Outside, s).mode.Outside?
    ensures Scan(Outside, s + [b]).mode.Outside?
    decreases |s|, 0
  {
    var t := s + [b];
    if s[0] != '\\' {
      assert t[1..] == s[1..] + [b];
      BlankOpensNothing(if s[0] == '\'' then InSingle else if s[0] == '"' then InDouble else Outside, s[1..], b);
    } else if |s| > 1 {
      assert t[2..] == s[2..] + [b];
      BlankOpensNothing(Outside, s[2..], b);
    } else {
      assert t[2..] == "";
    }
  }

  lemma {:induction false} BlankInDouble(s: string, b: char)
    requires IsBlank(b) && s != "" && Scan(InDouble, s).mode.Outside?
    ensures Scan(InDouble, s + [b]).mode.Outside?
    decreases |s|, 0
  {
    var t := s + [b];
    if s[0] == '\\' && |s| > 1 && s[1] in ESCAPABLE {
      assert t[2..] == s[2..] + [b];
      BlankOpensNothing(InDouble, s[2..], b);
    } else {
      assert t[1..] == s[1..] + [b];
      BlankOpensNothing(if s[0] == '"' then Outside else InDouble, s[1..], b);
    }
  }

  lemma {:induction false} OpenTrimmed(s: string)
    requires !Scan(Outside, s).mode.Outside?
    ensures !Scan(Outside, TrimRight(s)).mode.Outside?
    decreases |s|
  {
    if s != "" && IsBlank(s[|s| - 1]) {
      var init := s[..|s| - 1];
      assert s == init + [s[|s| - 1]];
      if Scan(Outside, init).mode.Outside? {
        BlankOpensNothing(Outside, init, s[|s| - 1]);
      }
      OpenTrimmed(init);
    }
  }

  lemma {:induction false} GapIsBlank(s: string)
    ensures Blanks(s[..|s| - |SkipBlanks(s)|])
  {
    if s != "" && IsBlank(s[0]) {
      GapIsBlank(s[1..]);
      assert s[..|s| - |SkipBlanks(s)|] == [s[0]] + s[1..][..|s| - 1 - |SkipBlanks(s[1..])|];
    }
  }

  lemma {:induction false} SkipOfTrimRight(s: string)
    requires SkipBlanks(s) != ""
    ensures SkipBlanks(TrimRight(s)) == TrimRight(SkipBlanks(s)) && TrimRight(SkipBlanks(s)) != ""
    ensures TrimRight(s) != "" && TrimRight(s)[0] == s[0]
  {
    var core := SkipBlanks(s);
    var gap := s[..|s| - |core|];
    SkipBlanksIsSuffix(s);
    GapIsBlank(s);
    assert s == gap + core;
    TrimRightKeepsFront(gap, core);
    TrimRightIs(core);
    assert TrimRight(core) != "";
    SkipsBlanks(gap, TrimRight(core));
  }

  lemma {:induction false} QuoteStaysOpen(after: string)
    requires OpenQuote(after)
    ensures OpenQuote(TrimRight(after)) && (Ends(after) ==> Ends(TrimRight(after)))
    ensures Trim(after) != "" && OpenQuote(Trim(after))
  {
    SkipOfTrimRight(after);
    OpenTrimmed(SkipBlanks(after));
  }

  // ----- the segment ------------------------------------------------------

  lemma {:induction false} KeptAndTail(s: string)
    ensures s == TrimRight(s) + s[|TrimRight(s)|..] && Blanks(s[|TrimRight(s)|..])
    ensures TrimRight(s) != "" ==> !IsBlank(TrimRight(s)[|TrimRight(s)| - 1])
  {
    TrimRightIs(s);
  }

  lemma {:induction false} TrimInFront(gap: string, front: string, after: string)
    requires Blanks(gap) && front != "" && !IsBlank(front[0]) && SkipBlanks(after) != ""
    ensures Trim((gap + front) + after) == front + TrimRight(after)
  {
    SkipOfTrimRight(after);
    KeptAndTail(after);
    var kept, tail := TrimRight(after), after[|TrimRight(after)|..];
    assert (gap + front) + (kept + tail) == gap + (front + kept) + tail;
    TrimIs(gap, front + kept, tail);
  }

  /** What is left of a segment that starts with words and goes on with an open quote. */
  lemma {:induction false} TrimBeforeQuote(ws: seq<Written>, after: string)
    requires Readable(ws) && ws != [] && SkipBlanks(after) != ""
    ensures Trim(Text(ws) + after) == Text(Flush(ws)) + TrimRight(after)
  {
    FlushText(ws);
    FlushStarts(ws);
    TrimInFront(ws[0].gap, Text(Flush(ws)), after);
  }

  lemma {:induction false} OpenSegmentTokens(ws: seq<Written>, after: string)
    requires Readable(ws) && Follows(ws, after) && OpenQuote(after)
    ensures var t := Trim(Text(ws) + after); t != "" && Tokens(t) == Values(ws)
  {
    QuoteStaysOpen(after);
    if ws == [] {
      assert Text(ws) + after == after;
    } else {
      TrimBeforeQuote(ws, after);
      FlushKeepsWords(ws);
      FlushStarts(ws);
      assert Flush(ws)[|ws| - 1].pieces == ws[|ws| - 1].pieces;
      OpenQuoteEndsTheWords(Flush(ws), TrimRight(after));
    }
  }

  /** The words of a segment end at an open quote. */
  predicate EndsOpen(text: string)
    decreases |text|
  {
    if Next(text).word.None? then OpenQuote(text) else EndsOpen(Next(text).rest)
  }

  lemma {:induction false} EndsOpenBehind(ws: seq<Written>, after: string)
    requires Readable(ws) && Follows(ws, after)
    ensures EndsOpen(Text(ws) + after) == EndsOpen(after)
    decreases |ws|
  {
    if ws == [] {
      assert Text(ws) + after == after;
    } else {
      NextBehind(ws, after);
      assert ws[1..] != [] ==> ws[1..][|ws[1..]| - 1] == ws[|ws| - 1];
      EndsOpenBehind(ws[1..], after);
    }
  }

  /** A segment without a missing file name is complained about exactly when its words end at an open quote. */
  lemma {:induction false} FilledComplains(c: Command, text: string)
    requires Fill(c, Tokens(text)).Filled?
    ensures Complains(text) <==> EndsOpen(text)
    decreases |text|
  {
    var t := Next(text);
    if t.word.Some? {
      assert Tokens(text) == [t.word.value] + Tokens(t.rest);
      if OperatorOf(t.word.value).None? {
        FilledComplains(c.(argv := c.argv + [t.word.value]), t.rest);
      } else {
        var op, u := OperatorOf(t.word.value).value, Next(t.rest);
        assert u.word.Some? ==> Tokens(t.rest) == [u.word.value] + Tokens(u.rest);
        assert u.word.Some? && Tokens(text)[2..] == Tokens(u.rest);
        FilledComplains(c.(files := c.files[op := u.word.value]), u.rest);
      }
    }
  }

  /** The words written are a command: proper parts with at least one argument. */
  ghost predicate SpellsCommand(ws: seq<Written>, parts: seq<Part>) {
    AllProper(parts) && Spell(parts) == Values(ws) && Arguments(parts) != []
  }

  /**
   A segment whose quote is not closed is accepted if and only if the words in
   front of the quote are a command by themselves. It is then that command, and
   the complaint is printed.
   */
  lemma {:induction false} OpenQuoteVerdict(ws: seq<Written>, after: string, last: bool)
    requires Readable(ws) && Follows(ws, after) && OpenQuote(after)
    ensures var t := Trim(Text(ws) + after);
            && (Judge(t, last).Parsed? <==> exists parts :: SpellsCommand(ws, parts))
            && (forall parts :: SpellsCommand(ws, parts) ==>
                  Judge(t, last) == Parsed(Build(EMPTY, parts)) && Complains(t))
  {
    var t := Trim(Text(ws) + after);
    OpenSegmentTokens(ws, after);
    var parts, rest := PartsOf(EMPTY, Values(ws));
    if Judge(t, last).Parsed? {
      assert Spell(parts) + [] == Spell(parts);
      assert SpellsCommand(ws, parts);
    }
    forall parts | SpellsCommand(ws, parts) ensures Judge(t, last) == Parsed(Build(EMPTY, parts)) && Complains(t) {
      FillBuilds(EMPTY, parts);
      OpenCommandComplains(ws, after, parts);
    }
  }

  lemma {:induction false} OpenCommandComplains(ws: seq<Written>, after: string, parts: seq<Part>)
    requires Readable(ws) && Follows(ws, after) && OpenQuote(after) && SpellsCommand(ws, parts)
    ensures Complains(Trim(Text(ws) + after))
  {
    assert ws != [] by {
      assert parts != [];
    }
    QuoteStaysOpen(after);
    TrimBeforeQuote(ws, after);
    FlushKeepsWords(ws);
    assert Flush(ws)[|ws| - 1].pieces == ws[|ws| - 1].pieces;
    EndsOpenBehind(Flush(ws), TrimRight(after));
    OpenSegmentTokens(ws, after);
    FillBuilds(EMPTY, parts);
    FilledComplains(EMPTY, Trim(Text(ws) + after));
  }
}
