/** Concrete lines at which a reader's expectation of the parser fails. */
module Lines {
  import opened Wrappers
  import opened Tokenizer
  import opened Parser
  import opened Printer

  // ----- a quote that is not closed ---------------------------------------

  const OPEN_QUOTE := "ls \"x"

  lemma OpenQuoteHasNoWord()
    ensures Next(" \"x").word.None? && OpenQuote(" \"x")
  {
    var after := " \"x";
    assert after[1..] == "\"x" && "\"x"[1..] == "x" && "x"[1..] == "";
    assert SkipBlanks(after) == "\"x";
    assert Scan(InDouble, "x").mode.InDouble?;
  }

  lemma WordBeforeOpenQuote()
    ensures Next(OPEN_QUOTE) == Token(Some("ls"), " \"x")
  {
    var ps := [Bare('l')] + ([Bare('s')] + []);
    Cons(Bare('s'), []);
    Cons(Bare('l'), [Bare('s')] + []);
    assert Source(ps) == "ls" && Value(ps) == "ls";
    NextReadsWord("", ps, " \"x");
    assert "" + "ls" + " \"x" == OPEN_QUOTE;
  }

  lemma OpenQuoteTokens()
    ensures Tokens(OPEN_QUOTE) == ["ls"]
  {
    OpenQuoteHasNoWord();
    WordBeforeOpenQuote();
    assert Tokens(" \"x") == [];
  }

  lemma OpenQuoteIsTrimmed()
    ensures Trim(OPEN_QUOTE) == OPEN_QUOTE && Split(OPEN_QUOTE) == [OPEN_QUOTE]
  {
    NoBar(OPEN_QUOTE);
  }

  lemma OpenQuoteComplains()
    ensures Diagnosed(OPEN_QUOTE) == 1
  {
    OpenQuoteHasNoWord();
    WordBeforeOpenQuote();
    OpenQuoteIsTrimmed();
    assert TrimRight(OPEN_QUOTE) == OPEN_QUOTE;
    assert Complains(OPEN_QUOTE);
    assert [OPEN_QUOTE][1..] == [];
  }

  lemma OpenQuoteParses()
    ensures Parse(OPEN_QUOTE) == Accepted([Command(["ls"], map[])])
  {
    OpenQuoteTokens();
    var c := Command(["ls"], map[]);
    OpenQuoteIsTrimmed();
    assert Fill(EMPTY, ["ls"]) == Fill(c, []);
    ParseAccepts(OPEN_QUOTE, [c]);
  }

  /** A line whose quote is not closed can be accepted, as the command in front of the quote, after one complaint. */
  lemma OpenQuoteIsAccepted()
    ensures Parse(OPEN_QUOTE) == Accepted([Command(["ls"], map[])]) && Diagnosed(OPEN_QUOTE) == 1
  {
    OpenQuoteParses();
    OpenQuoteComplains();
  }

  // ----- a blank behind a backslash ---------------------------------------

  const ESCAPED_BLANK := "a\\ "

  lemma EscapedBlankIsTrimmed()
    ensures Trim(ESCAPED_BLANK) == "a\\"
  {
    TrimIs("", "a\\", " ");
    assert "" + "a\\" + " " == ESCAPED_BLANK;
  }

  lemma WordAndBackslash()
    ensures Next("a\\") == Token(Some("a"), "")
  {
    var ps := [Bare('a')] + ([Dangling] + []);
    Cons(Dangling, []);
    Cons(Bare('a'), [Dangling] + []);
    assert Source(ps) == "a\\" && Value(ps) == "a";
    NextReadsWord("", ps, "");
    assert "" + "a\\" + "" == "a\\";
  }

  lemma EscapedBlankTokens()
    ensures Tokens("a\\") == ["a"]
  {
    WordAndBackslash();
    TokensCons("a\\");
    assert Tokens("") == [];
  }

  /** The blank is escaped, and lost: the word is `a`, not `a` and a blank. */
  lemma EscapedBlankIsLost()
    ensures Parse(ESCAPED_BLANK) == Accepted([Command(["a"], map[])])
  {
    EscapedBlankIsTrimmed();
    EscapedBlankTokens();
    NoBar(ESCAPED_BLANK);
    var c := Command(["a"], map[]);
    assert Fill(EMPTY, ["a"]) == Fill(c, []);
    ParseAccepts(ESCAPED_BLANK, [c]);
  }

  // ----- operators and bars inside quotes ---------------------------------

  const QUOTED_BAR := "'|'"

  lemma LoneQuote()
    ensures Trim("'") == "'" && Tokens("'") == []
  {
    assert "'"[1..] == "";
  }

  lemma QuotedBarCut()
    ensures Split(QUOTED_BAR) == ["'", "'"]
  {
    assert QUOTED_BAR == "'" + "|" + "'";
    NoBar("'");
    SplitCons("'", "'");
  }

  /** The bar splits inside the quotes: two segments with an open quote each, and no command in the first. */
  lemma QuotedBarSplits()
    ensures Split(QUOTED_BAR) == ["'", "'"] && Parse(QUOTED_BAR) == Rejected(EmptyPipe)
  {
    QuotedBarCut();
    LoneQuote();
    OutcomesTrimmed(QUOTED_BAR);
    assert Outcomes(Split(QUOTED_BAR))[0] == Judge("'", false);
    assert Fill(EMPTY, []) == Filled(EMPTY);
  }

  const QUOTED_OPERATOR := "'<'"

  lemma QuotedOperatorWord()
    ensures Next(QUOTED_OPERATOR) == Token(Some("<"), "")
  {
    assert QUOTED_OPERATOR == SingleQuote("<") by {
      assert SingleBodyText("<") == "<" + SingleBodyText("");
      assert "<"[1..] == "";
    }
    NextUndoesQuoting("", "<", "");
    assert "" + SingleQuote("<") + "" == QUOTED_OPERATOR;
  }

  lemma QuotedOperatorTokens()
    ensures Trim(QUOTED_OPERATOR) == QUOTED_OPERATOR && Tokens(QUOTED_OPERATOR) == ["<"]
  {
    QuotedOperatorWord();
    TokensCons(QUOTED_OPERATOR);
    assert Tokens("") == [];
  }

  /** The quoted operator is one all the same, and its file is missing. */
  lemma QuotedOperatorRedirects()
    ensures Parse(QUOTED_OPERATOR) == Rejected(MissingFile(Input))
  {
    QuotedOperatorTokens();
    NoBar(QUOTED_OPERATOR);
    OutcomesTrimmed(QUOTED_OPERATOR);
    assert Outcomes(Split(QUOTED_OPERATOR))[0] == Judge(QUOTED_OPERATOR, true);
  }

  // ----- single characters ------------------------------------------------

  lemma SeparatedTokens(c: char)
    requires c == ' ' || c == '\t'
    ensures Tokens(['a', c, 'b']) == ["a", "b"]
  {
    var s := ['a', c, 'b'];
    assert s[1..] == [c, 'b'] && [c, 'b'][1..] == "b" && "b"[1..] == "";
    assert Scan(Outside, [c, 'b']) == Scanned(Outside, "", 0) && ['a'] + "" == "a";
    assert Scan(Outside, s) == Scanned(Outside, "a", 1);
    assert Scan(Outside, "b") == Scanned(Outside, "b", 1);
    assert SkipBlanks([c, 'b']) == "b";
    TokensCons(s);
    TokensCons([c, 'b']);
    assert Tokens("") == [];
  }

  /** Without a space or a tab a scan reads on to the end. */
  lemma {:induction false} ScansOn(mode: Mode, s: string)
    requires ' ' !in s && '\t' !in s
    ensures Scan(mode, s).used == |s|
    decreases |s|
  {
    if s != "" {
      var (m, n) := match mode
        case Outside =>
          if s[0] == '\'' then (InSingle, 1) else if s[0] == '"' then (InDouble, 1)
          else (Outside, if s[0] == '\\' && |s| > 1 then 2 else 1)
        case InSingle => (if s[0] == '\'' then Outside else InSingle, 1)
        case InDouble =>
          if s[0] == '"' then (Outside, 1)
          else (InDouble, if s[0] == '\\' && |s| > 1 && s[1] in ESCAPABLE then 2 else 1);
      ScansOn(m, s[n..]);
    }
  }

  lemma JoinedTokens(c: char)
    requires c != ' ' && c != '\t'
    ensures |Tokens(['a', c, 'b'])| <= 1
  {
    var s := ['a', c, 'b'];
    ScansOn(Outside, s);
    assert SkipBlanks(s) == s && s[3..] == "" && Tokens("") == [];
    if Next(s).word.Some? {
      TokensCons(s);
    }
  }

  /** Space and tab separate words, and no other character does. */
  lemma Separators(c: char)
    ensures Tokens(['a', c, 'b']) == ["a", "b"] <==> c == ' ' || c == '\t'
  {
    if c == ' ' || c == '\t' {
      SeparatedTokens(c);
    } else {
      JoinedTokens(c);
    }
  }

  /** A line of one character is blank exactly when that is a space or a tab. */
  lemma BlankCharacters(c: char)
    ensures Parse([c]).Ignored? <==> c == ' ' || c == '\t'
    ensures Trim([c]) == "" <==> c == ' ' || c == '\t'
  {
    ParseReports([c]);
    assert [c][1..] == "" && [c][..0] == "";
  }

  /**
   What a backslash does to the character behind it: outside quotes it stands
   for that character; inside double quotes it does for a quote or a backslash,
   makes a newline of an `n`, and otherwise stays. Single quotes protect all but
   themselves.
   */
  lemma Escapes(c: char)
    ensures Next(['\\', c]) == Token(Some([c]), "")
    ensures Next(['"', '\\', c, '"'])
            == Token(Some(if c == 'n' then "\n" else if c == '"' || c == '\\' then [c] else ['\\', c]), "")
    ensures c != '\'' ==> Next(['\'', c, '\'']) == Token(Some([c]), "")
  {
    EscapedOutside(c);
    EscapedInDouble(c);
    if c != '\'' {
      EscapedInSingle(c);
    }
  }

  lemma EscapedOutside(c: char)
    ensures Next(['\\', c]) == Token(Some([c]), "")
  {
    assert ['\\', c][2..] == "" && [c] + "" == [c];
    assert Scan(Outside, ['\\', c]) == Scanned(Outside, [c], 2);
  }

  lemma EscapedInDouble(c: char)
    ensures Next(['"', '\\', c, '"'])
            == Token(Some(if c == 'n' then "\n" else if c == '"' || c == '\\' then [c] else ['\\', c]), "")
  {
    var s := ['"', '\\', c, '"'];
    var body := s[1..];
    assert body == ['\\', c, '"'] && body[1..] == [c, '"'] && body[2..] == "\"" && body[1..][1..] == "\"";
    assert "\""[1..] == "";
    assert Scan(Outside, "") == Scanned(Outside, "", 0) && "" + "" == "";
    assert Scan(InDouble, "\"") == Scanned(Outside, "", 1);
    assert [c] + "" == [c] && "\n" + "" == "\n" && "\\" + [c] == ['\\', c];
    assert c != '"' && c != '\\' ==> Scan(InDouble, [c, '"']) == Scanned(Outside, [c], 2);
    var value := if c == 'n' then "\n" else if c == '"' || c == '\\' then [c] else ['\\', c];
    assert Scan(InDouble, body) == Scanned(Outside, value, 3);
    assert "" + value == value;
    assert Scan(Outside, s) == Scanned(Outside, value, 4);
  }

  lemma EscapedInSingle(c: char)
    requires c != '\''
    ensures Next(['\'', c, '\'']) == Token(Some([c]), "")
  {
    var s := ['\'', c, '\''];
    assert s[1..] == [c, '\''] && [c, '\''][1..] == "'" && "'"[1..] == "";
    assert Scan(Outside, "") == Scanned(Outside, "", 0) && "" + "" == "";
    assert Scan(InSingle, "'") == Scanned(Outside, "", 1) && [c] + "" == [c];
    assert Scan(InSingle, [c, '\'']) == Scanned(Outside, [c], 2) && "" + [c] == [c];
    assert Scan(Outside, s) == Scanned(Outside, [c], 3);
  }

  // ----- operators --------------------------------------------------------

  /** Of two files for one operator the later counts. */
  lemma {:induction false} LaterFileCounts()
    ensures Fill(EMPTY, ["a", ">", "o", ">", "p"]) == Filled(Command(["a"], map[Output := "p"]))
  {
    var parts := [Argument("a"), Redirect(Output, "o"), Redirect(Output, "p")];
    assert parts[1..] == [Redirect(Output, "o"), Redirect(Output, "p")];
    assert parts[1..][1..] == [Redirect(Output, "p")] && parts[1..][1..][1..] == [];
    assert Spell(parts) == ["a", ">", "o", ">", "p"];
    FillBuilds(EMPTY, parts);
  }

  /** Which file is which, and that an operator wants one. */
  lemma {:induction false} OperatorsByName()
    ensures Fill(EMPTY, ["a", "<", "i", ">", "o", "2>", "e"])
            == Filled(Command(["a"], map[Input := "i", Output := "o", Error := "e"]))
    ensures Fill(EMPTY, ["a", "<"]) == Missing(Input) && Fill(EMPTY, ["a", ">"]) == Missing(Output)
    ensures Fill(EMPTY, ["a", "2>"]) == Missing(Error)
  {
    var parts := [Argument("a"), Redirect(Input, "i"), Redirect(Output, "o"), Redirect(Error, "e")];
    assert parts[1..] == [Redirect(Input, "i"), Redirect(Output, "o"), Redirect(Error, "e")];
    assert parts[1..][1..] == [Redirect(Output, "o"), Redirect(Error, "e")];
    assert parts[1..][1..][1..] == [Redirect(Error, "e")];
    assert parts[1..][1..][1..][1..] == [];
    FillBuilds(EMPTY, parts);
    assert ["a", "<"][1..] == ["<"] && ["a", ">"][1..] == [">"] && ["a", "2>"][1..] == ["2>"];
  }
}
