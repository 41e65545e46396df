/**
 The parser at work: it walks over a character buffer, writes terminators into
 it, and copies one word at a time through a fixed buffer. Each method is tied
 to the function of modules Tokenizer and Parser that specifies it.
 */
module LineParser {
  import opened Wrappers
  import opened Tokenizer
  import opened Parser
  import opened Verdicts

  const NUL: char := '\0'
  const BUFFER_SIZE := 4096
  const MAX_TOKENS := 100

  /** The C string `text` stands in `line` at `p`, with its terminator. */
  ghost predicate Holds(line: array<char>, p: nat, text: string)
    reads line
  {
    && p + |text| < line.Length && line[p + |text|] == NUL && NUL !in text
    && forall k {:trigger text[k]} :: 0 <= k < |text| ==> line[p + k] == text[k]
  }

  lemma HoldsRest(line: array<char>, p: nat, text: string, n: nat)
    requires Holds(line, p, text) && n <= |text|
    ensures Holds(line, p + n, text[n..])
    ensures n < |text| ==> line[p + n] == text[n] && line[p + n] != NUL
    ensures n == |text| ==> line[p + n] == NUL
  {
  }

  method SkipWhitespace(line: array<char>, start: nat, ghost text: string) returns (p: nat, ghost rest: string)
    requires Holds(line, start, text)
    ensures rest == SkipBlanks(text) && Holds(line, p, rest) && start <= p && p + |rest| == start + |text|
  {
    p, rest := start, text;
    HoldsRest(line, p, rest, 0);
    while line[p] == ' ' || line[p] == '\t'
      invariant start <= p && p + |rest| == start + |text|
      invariant Holds(line, p, rest) && (rest != "" ==> line[p] == rest[0])
      invariant SkipBlanks(text) == SkipBlanks(rest)
      decreases |rest|
    {
      HoldsRest(line, p, rest, 1);
      p, rest := p + 1, rest[1..];
      HoldsRest(line, p, rest, 0);
    }
  }

  method StrLen(line: array<char>, start: nat, ghost text: string) returns (n: nat)
    requires Holds(line, start, text)
    ensures n == |text|
  {
    n := 0;
    HoldsRest(line, start, text, 0);
    while line[start + n] != NUL
      invariant n <= |text| && start + n < line.Length
      invariant line[start + n] == NUL <==> n == |text|
      decreases |text| - n
    {
      n := n + 1;
      HoldsRest(line, start, text, n);
    }
  }

  /** Overwrites the blanks at the end of a string with terminators, from the last one on. */
  method CutBlanks(line: array<char>, t: nat, n: nat, ghost core: string)
    requires Holds(line, t, core) && n == |core| && core != "" && !IsBlank(core[0])
    modifies line
    ensures Holds(line, t, TrimRight(core))
    ensures forall k :: 0 <= k < line.Length && !(t <= k < t + n) ==> line[k] == old(line[k])
  {
    var end := t + n - 1;
    ghost var kept := core;
    while end > t && (line[end] == ' ' || line[end] == '\t')
      invariant end + 1 == t + |kept| && kept <= core && kept != ""
      invariant Holds(line, t, kept) && TrimRight(core) == TrimRight(kept)
      invariant forall k :: 0 <= k < line.Length && !(t <= k < t + n) ==> line[k] == old(line[k])
      decreases end
    {
      assert line[end] == kept[|kept| - 1];
      line[end] := NUL;
      end := end - 1;
      kept := kept[..|kept| - 1];
    }
    assert line[end] == kept[|kept| - 1] && kept[0] == core[0];
  }

  /** Trims a string in place at its end and returns where its first character stands. */
  method TrimWhitespace(line: array<char>, start: nat, ghost text: string) returns (t: nat)
    requires Holds(line, start, text)
    modifies line
    ensures t + |SkipBlanks(text)| == start + |text| && Holds(line, t, Trim(text))
    ensures forall k :: 0 <= k < line.Length && !(t <= k < start + |text|) ==> line[k] == old(line[k])
  {
    ghost var core;
    t, core := SkipWhitespace(line, start, text);
    HoldsRest(line, t, core, 0);
    if line[t] != NUL {
      var n := StrLen(line, t, core);
      CutBlanks(line, t, n, core);
    }
  }

  lemma {:induction false} TrimRightOfText(text: string)
    requires SkipBlanks(text) != ""
    ensures TrimRight(text) == text[..|text| - |SkipBlanks(text)|] + Trim(text)
  {
    var core := SkipBlanks(text);
    SkipBlanksIsSuffix(text);
    assert text == text[..|text| - |core|] + core;
    TrimRightKeepsFront(text[..|text| - |core|], core);
  }

  lemma HoldsJoined(line: array<char>, start: nat, front: string, text: string)
    requires Holds(line, start + |front|, text) && NUL !in front
    requires forall k {:trigger front[k]} :: 0 <= k < |front| ==> line[start + k] == front[k]
    ensures Holds(line, start, front + text)
  {
  }

  lemma {:induction false} HoldsTrimmed(line: array<char>, start: nat, text: string, t: nat)
    requires SkipBlanks(text) != "" && t + |SkipBlanks(text)| == start + |text| && Holds(line, t, Trim(text))
    requires NUL !in text && forall k {:trigger text[k]} :: 0 <= k < t - start ==> line[start + k] == text[k]
    ensures Holds(line, start, TrimRight(text))
  {
    SkipBlanksIsSuffix(text);
    TrimRightOfText(text);
    var front := text[..|text| - |SkipBlanks(text)|];
    forall k {:trigger front[k]} | 0 <= k < |front|
      ensures line[start + k] == front[k]
    {
      assert front[k] == text[k];
    }
    HoldsJoined(line, start, front, Trim(text));
  }

  /** Trimming a line that is not blank also takes the blanks at its end away from whoever reads it from the start. */
  method TrimLine(line: array<char>, start: nat, ghost text: string) returns (t: nat)
    requires Holds(line, start, text)
    modifies line
    ensures Holds(line, t, Trim(text))
    ensures SkipBlanks(text) != "" ==> Holds(line, start, TrimRight(text))
  {
    t := TrimWhitespace(line, start, text);
    if SkipBlanks(text) != "" {
      HoldsTrimmed(line, start, text, t);
    }
  }

  // ----- next_token -------------------------------------------------------

  /** One turn of the automaton: the next state, what it writes and how much it reads. */
  function Turn(mode: Mode, s: string): (r: (Mode, string, nat))
    requires s != "" && !(mode.Outside? && IsBlank(s[0]))
    ensures 1 <= r.2 <= |s| && |r.1| <= 1
  {
    match mode
    case Outside =>
      if s[0] == '\'' then (InSingle, "", 1)
      else if s[0] == '"' then (InDouble, "", 1)
      else if s[0] != '\\' then (Outside, [s[0]], 1)
      else if |s| == 1 then (Outside, "", 1)
      else (Outside, [s[1]], 2)
    case InSingle => if s[0] == '\'' then (Outside, "", 1) else (InSingle, [s[0]], 1)
    case InDouble =>
      if s[0] == '"' then (Outside, "", 1)
      else if s[0] != '\\' then (InDouble, [s[0]], 1)
      else if |s| > 1 && s[1] == 'n' then (InDouble, "\n", 2)
      else if |s| > 1 && (s[1] == '"' || s[1] == '\\') then (InDouble, [s[1]], 2)
      else (InDouble, "\\", 1)
  }

  lemma {:induction false} ScanTurns(mode: Mode, s: string)
    requires s != "" && !(mode.Outside? && IsBlank(s[0]))
    ensures var (m, w, n) := Turn(mode, s); Scan(mode, s) == More(w, n, Scan(m, s[n..]))
  {
    if mode.Outside? && s == "\\" {
      assert s[1..] == "";
    }
  }

  lemma {:induction false} ScanGoesOn(core: string, word: string, done: nat, state: Mode, rest: string)
    requires rest != "" && !(state.Outside? && IsBlank(rest[0]))
    requires Scan(Outside, core) == More(word, done, Scan(state, rest))
    ensures var (m, w, n) := Turn(state, rest);
            && Scan(Outside, core) == More(word + w, done + n, Scan(m, rest[n..]))
            && |word + w| <= |Scan(Outside, core).text|
  {
    var (m, w, n) := Turn(state, rest);
    ScanTurns(state, rest);
    MoreTwice(word, done, w, n, Scan(m, rest[n..]));
  }

  /** The first `i` characters of the buffer. */
  ghost predicate Written(buffer: array<char>, i: nat, word: string)
    reads buffer
  {
    i == |word| && i <= buffer.Length && forall k {:trigger word[k]} :: 0 <= k < i ==> buffer[k] == word[k]
  }

  /** The body of the scanning loop, for a character that does not end the word. */
  method ScanCharacter(line: array<char>, p: nat, buffer: array<char>, i: nat, state: Mode,
                       ghost rest: string, ghost word: string)
    returns (p': nat, i': nat, state': Mode)
    requires line != buffer && Holds(line, p, rest) && rest != "" && !(state.Outside? && IsBlank(rest[0]))
    requires Written(buffer, i, word) && i + |Turn(state, rest).1| <= buffer.Length
    modifies buffer
    ensures var (m, w, n) := Turn(state, rest);
            state' == m && p' == p + n && Written(buffer, i', word + w)
  {
    p', i', state' := p, i, state;
    var c := line[p];
    assert c == rest[0];
    if |rest| > 1 {
      assert line[p + 1] == rest[1];
    }
    match state
    case Outside =>
      if c == '\'' {
        state' := InSingle;
        p' := p' + 1;
      } else if c == '"' {
        state' := InDouble;
        p' := p' + 1;
      } else if c == '\\' {
        p' := p' + 1;
        if line[p'] != NUL {
          buffer[i'] := line[p'];
          i', p' := i' + 1, p' + 1;
        }
      } else {
        buffer[i'] := c;
        i', p' := i' + 1, p' + 1;
      }
    case InSingle =>
      if c == '\'' {
        state' := Outside;
        p' := p' + 1;
      } else {
        buffer[i'] := c;
        i', p' := i' + 1, p' + 1;
      }
    case InDouble =>
      if c == '"' {
        state' := Outside;
        p' := p' + 1;
      } else if c == '\\' {
        p' := p' + 1;
        if line[p'] == 'n' {
          buffer[i'] := '\n';
          i', p' := i' + 1, p' + 1;
        } else if line[p'] == '"' || line[p'] == '\\' {
          buffer[i'] := line[p'];
          i', p' := i' + 1, p' + 1;
        } else {
          buffer[i'] := '\\';
          i' := i' + 1;
        }
      } else {
        buffer[i'] := c;
        i', p' := i' + 1, p' + 1;
      }
  }

  /** The next word, unquoted, fits the fixed buffer with its terminator; the source does not check this. */
  predicate NextFits(text: string) {
    |Scan(Outside, SkipBlanks(text)).text| < BUFFER_SIZE
  }

  /** `word` is what has been written and `done` what has been read when the scan of `core` stands in `state`. */
  ghost predicate Scanning(core: string, word: string, done: nat, state: Mode) {
    done <= |core| && Scan(Outside, core) == More(word, done, Scan(state, core[done..]))
  }

  lemma {:induction false} ScanningGoesOn(core: string, word: string, done: nat, state: Mode)
    requires Scanning(core, word, done, state) && done < |core| && !(state.Outside? && IsBlank(core[done]))
    ensures var (m, w, n) := Turn(state, core[done..]);
            && Scanning(core, word + w, done + n, m) && |word + w| <= |Scan(Outside, core).text|
  {
    var (m, w, n) := Turn(state, core[done..]);
    ScanGoesOn(core, word, done, state, core[done..]);
    assert core[done..][n..] == core[done + n..];
  }

  method ScanOn(line: array<char>, start: nat, p: nat, buffer: array<char>, i: nat, state: Mode,
                ghost core: string, ghost word: string, ghost done: nat)
    returns (p': nat, i': nat, state': Mode, ghost word': string, ghost done': nat)
    requires line != buffer && Holds(line, start, core) && |Scan(Outside, core).text| < buffer.Length
    requires Scanning(core, word, done, state) && p == start + done && Written(buffer, i, word)
    requires done < |core| && !(state.Outside? && IsBlank(core[done]))
    modifies buffer
    ensures Scanning(core, word', done', state') && p' == start + done' && Written(buffer, i', word')
    ensures done < done'
  {
    ghost var (m, w, n) := Turn(state, core[done..]);
    HoldsRest(line, start, core, done);
    ScanningGoesOn(core, word, done, state);
    p', i', state' := ScanCharacter(line, p, buffer, i, state, core[done..], word);
    done', word' := done + n, word + w;
  }

  /** The scanning loop: characters go to the buffer until the word or the line ends. */
  method ScanWord(line: array<char>, start: nat, buffer: array<char>, ghost core: string)
    returns (p: nat, i: nat, state: Mode)
    requires line != buffer && Holds(line, start, core) && |Scan(Outside, core).text| < buffer.Length
    modifies buffer
    ensures var r := Scan(Outside, core);
            state == r.mode && p == start + r.used && Written(buffer, i, r.text)
  {
    ghost var done, word := 0, "";
    p, i, state := start, 0, Outside;
    HoldsRest(line, start, core, 0);
    while line[p] != NUL && !(state.Outside? && (line[p] == ' ' || line[p] == '\t'))
      invariant Scanning(core, word, done, state) && p == start + done && Written(buffer, i, word)
      invariant line[p] == if done < |core| then core[done] else NUL
      decreases |core| - done
    {
      p, i, state, word, done := ScanOn(line, start, p, buffer, i, state, core, word, done);
      HoldsRest(line, start, core, done);
    }
  }

  /** Copies the next word into the buffer, or finds none; an open quote leaves the input where it was. */
  method NextToken(line: array<char>, input: nat, buffer: array<char>, ghost text: string)
    returns (found: bool, input': nat, open: bool)
    requires line != buffer && buffer.Length == BUFFER_SIZE && Holds(line, input, text) && NextFits(text)
    modifies buffer
    ensures var t := Next(text);
            && (found <==> t.word.Some?) && (open <==> OpenQuote(text)) && Holds(line, input', t.rest)
            && (found ==> Holds(buffer, 0, t.word.value))
    ensures open ==> input' == input
  {
    ghost var core;
    var p;
    p, core := SkipWhitespace(line, input, text);
    HoldsRest(line, p, core, 0);
    if line[p] == NUL {
      return false, p, false;
    }
    var i, state;
    ghost var start := p;
    p, i, state := ScanWord(line, p, buffer, core);
    buffer[i] := NUL;
    ScanAddsNothing(Outside, core, NUL);
    if !state.Outside? {
      return false, input, true;
    }
    HoldsRest(line, start, core, p - start);
    return true, p, false;
  }

  // ----- parse_line -------------------------------------------------------

  /** The characters up to the terminator, copied. */
  method StrDup(buffer: array<char>, ghost word: string) returns (copy: string)
    requires Holds(buffer, 0, word)
    ensures copy == word
  {
    var n := StrLen(buffer, 0, word);
    copy := buffer[..n];
  }

  /** Puts a terminator in place of the next bar and returns what is behind it. */
  method StrSep(line: array<char>, cursor: nat, ghost text: string) returns (next: Option<nat>)
    requires Holds(line, cursor, text)
    modifies line
    ensures var i := FirstBar(text);
            && Holds(line, cursor, text[..i])
            && (next.None? <==> i == |text|)
            && (next.Some? ==> next.value == cursor + i + 1 && Holds(line, next.value, text[i + 1..]))
  {
    ghost var n := 0;
    var p := cursor;
    HoldsRest(line, cursor, text, 0);
    while line[p] != NUL && line[p] != '|'
      invariant p == cursor + n && n <= FirstBar(text) && Holds(line, cursor, text)
      invariant line[p] == NUL <==> n == |text|
      invariant n < |text| ==> line[p] == text[n]
      decreases |text| - n
    {
      n, p := n + 1, p + 1;
      HoldsRest(line, cursor, text, n);
    }
    if line[p] == NUL {
      assert text[..n] == text;
      return None;
    }
    HoldsRest(line, cursor, text, n + 1);
    line[p] := NUL;
    return Some(p + 1);
  }

  /** Every word the segment loop may read fits the buffer. */
  predicate WordsFit(text: string)
    decreases |text|
  {
    NextFits(text) && (Next(text).word.Some? ==> WordsFit(Next(text).rest))
  }

  /** How many arguments the segment loop stores. */
  function ArgumentCount(words: seq<string>): nat
    decreases |words|
  {
    if words == [] then 0
    else if OperatorOf(words[0]).None? then 1 + ArgumentCount(words[1..])
    else if |words| == 1 || OperatorOf(words[1]).Some? then 0
    else ArgumentCount(words[2..])
  }

  /** What the fixed buffer and the fixed argument array leave room for: 99 arguments, with their terminator. */
  predicate SegmentFits(trimmed: string) {
    WordsFit(trimmed) && ArgumentCount(Tokens(trimmed)) < MAX_TOKENS
  }

  /** A redirection's file name: the next word, unless there is none or it is an operator. */
  method TakeFile(line: array<char>, scan: nat, buffer: array<char>, ghost text: string)
    returns (file: Option<string>, scan': nat, open: bool, ghost rest: string)
    requires line != buffer && buffer.Length == BUFFER_SIZE && Holds(line, scan, text) && WordsFit(text)
    modifies buffer
    ensures var words := Tokens(text);
            if words == [] || OperatorOf(words[0]).Some? then file.None?
            else file == Some(words[0]) && Holds(line, scan', rest) && WordsFit(rest) && Tokens(rest) == words[1..]
                 && |rest| < |text| && rest == Next(text).rest
    ensures (Next(text).word.None? <==> Tokens(text) == []) && (open <==> OpenQuote(text))
    ensures Next(text).word.Some? ==> Next(text).word.value == Tokens(text)[0]
  {
    var found;
    found, scan', open := NextToken(line, scan, buffer, text);
    rest := Next(text).rest;
    if !found {
      return None, scan', open, rest;
    }
    var token := StrDup(buffer, Next(text).word.value);
    if token == "<" || token == ">" || token == "2>" {
      return None, scan', open, rest;
    }
    return Some(token), scan', open, rest;
  }

  /** Where the segment loop stands: `c` is made of the words in front of `rest`, which is still to be read. */
  ghost predicate Parsing(text: string, rest: string, c: Command) {
    && WordsFit(rest) && |c.argv| + ArgumentCount(Tokens(rest)) < MAX_TOKENS
    && Fill(EMPTY, Tokens(text)) == Fill(c, Tokens(rest))
    && Complains(text) == Complains(rest)
  }

  /** The turn that finds no word. */
  lemma {:induction false} LastTurn(text: string, rest: string, c: Command)
    requires Parsing(text, rest, c) && Next(rest).word.None?
    ensures Fill(EMPTY, Tokens(text)) == Filled(c) && Complains(text) == OpenQuote(rest)
  {
  }

  /** A turn that reads an argument. */
  lemma {:induction false} ArgumentTurn(text: string, rest: string, c: Command)
    requires Parsing(text, rest, c) && Next(rest).word.Some? && OperatorOf(Next(rest).word.value).None?
    ensures |c.argv| + 1 < MAX_TOKENS
    ensures var t := Next(rest); Parsing(text, t.rest, Command(c.argv + [t.word.value], c.files))
  {
    TokensCons(rest);
  }

  /** A turn that reads an operator: the next word is its file, if it can be. */
  lemma {:induction false} RedirectTurn(text: string, rest: string, c: Command)
    requires Parsing(text, rest, c) && Next(rest).word.Some? && OperatorOf(Next(rest).word.value).Some?
    ensures var t := Next(rest);
            var op, words := OperatorOf(t.word.value).value, Tokens(t.rest);
            && WordsFit(t.rest)
            && if words == [] || OperatorOf(words[0]).Some? then
                 Fill(EMPTY, Tokens(text)) == Missing(op) && Complains(text) == OpenQuote(t.rest)
               else
                 Parsing(text, Next(t.rest).rest, Command(c.argv, c.files[op := words[0]]))
  {
    var t := Next(rest);
    TokensCons(rest);
    if t.rest != "" && Next(t.rest).word.Some? {
      TokensCons(t.rest);
      var words := Tokens(t.rest);
      assert Tokens(rest)[2..] == words[1..];
    }
  }

  /** The turn that reads an operator. */
  method Redirect(line: array<char>, scan: nat, buffer: array<char>, op: Operator,
                  ghost text: string, ghost rest: string, ghost c: Command)
    returns (file: Option<string>, scan': nat, open: bool, ghost rest': string)
    requires line != buffer && buffer.Length == BUFFER_SIZE && Parsing(text, rest, c)
    requires Next(rest).word.Some? && OperatorOf(Next(rest).word.value) == Some(op)
    requires Holds(line, scan, Next(rest).rest)
    modifies buffer
    ensures file.None? ==> Fill(EMPTY, Tokens(text)) == Missing(op) && open == Complains(text)
    ensures file.Some? ==>
              && Holds(line, scan', rest') && |rest'| < |rest|
              && Parsing(text, rest', Command(c.argv, c.files[op := file.value]))
  {
    RedirectTurn(text, rest, c);
    file, scan', open, rest' := TakeFile(line, scan, buffer, Next(rest).rest);
  }

  /** The segment loop: words become arguments or redirections until the segment ends or a file name is missing. */
  method ParseSegment(line: array<char>, trimmed: nat, buffer: array<char>, ghost text: string)
    returns (r: Filled, complains: bool)
    requires line != buffer && buffer.Length == BUFFER_SIZE && Holds(line, trimmed, text) && SegmentFits(text)
    modifies buffer
    ensures r == Fill(EMPTY, Tokens(text)) && complains == Complains(text)
  {
    var argv := new string[MAX_TOKENS];
    var argc, files, scan, open := 0, map[], trimmed, false;
    ghost var rest := text;
    while true
      invariant argc < MAX_TOKENS && Holds(line, scan, rest)
      invariant Parsing(text, rest, Command(argv[..argc], files))
      decreases |rest|
    {
      ghost var t, c := Next(rest), Command(argv[..argc], files);
      var found;
      found, scan, open := NextToken(line, scan, buffer, rest);
      if !found {
        LastTurn(text, rest, c);
        return Filled(Command(argv[..argc], files)), open;
      }
      var token := StrDup(buffer, t.word.value);
      var op := OperatorOf(token);
      match op
      case Some(o) =>
        var file;
        file, scan, open, rest := Redirect(line, scan, buffer, o, text, rest, c);
        if file.None? {
          return Missing(o), open;
        }
        files := files[o := file.value];
      case None =>
        ArgumentTurn(text, rest, c);
        argv[argc] := token;
        argc, rest := argc + 1, t.rest;
        assert argv[..argc] == c.argv + [token];
    }
  }

  /** The segments that are looked at, up to the first error, all fit. */
  predicate LineFits(segments: seq<string>) {
    segments == [] ||
    (&& SegmentFits(Trim(segments[0]))
     && (Judge(Trim(segments[0]), |segments| == 1).Bad? || LineFits(segments[1..])))
  }

  /** Trims a segment, rejects an empty one, and judges the command in it. */
  method JudgeSegment(line: array<char>, segment: nat, last: bool, buffer: array<char>, ghost text: string)
    returns (outcome: Outcome, complains: bool)
    requires line != buffer && buffer.Length == BUFFER_SIZE && Holds(line, segment, text) && SegmentFits(Trim(text))
    modifies line, buffer
    ensures outcome == Judge(Trim(text), last) && complains == Complains(Trim(text))
    ensures forall k :: 0 <= k < line.Length && !(segment <= k < segment + |text|) ==> line[k] == old(line[k])
  {
    var trimmed := TrimWhitespace(line, segment, text);
    HoldsRest(line, trimmed, Trim(text), 0);
    if line[trimmed] == NUL {
      return Bad(if last then MissingPipeCommand else EmptyPipe), false;
    }
    var filled;
    filled, complains := ParseSegment(line, trimmed, buffer, Trim(text));
    match filled
    case Missing(op) => outcome := Bad(MissingFile(op));
    case Filled(c) =>
      if c.argv != [] {
        outcome := Parsed(c);
      } else if !last && c.files != map[] {
        outcome := OnlyRedirects;
      } else {
        outcome := Bad(if last then MissingPipeCommand else EmptyPipe);
      }
  }

  function Remaining(text: string): seq<string> {
    if FirstBar(text) == |text| then [] else Split(text[FirstBar(text) + 1..])
  }

  lemma {:induction false} SplitIsSegment(text: string)
    ensures Split(text) == [text[..FirstBar(text)]] + Remaining(text)
  {
    assert text[..|text|] == text;
  }

  lemma {:induction false} WalkSegment(segment: string, more: seq<string>,
                                            commands: seq<Command>, deferred: bool, o: Outcome)
    requires o == Judge(Trim(segment), more == [])
    ensures Walk(Outcomes([segment] + more), commands, deferred)
            == if o.Parsed? then Walk(Outcomes(more), commands + [o.command], deferred)
               else if o.OnlyRedirects? then Walk(Outcomes(more), commands, true)
               else Rejected(o.message)
    ensures LineFits([segment] + more) ==> o.Bad? || LineFits(more)
  {
    OutcomesCons(segment, more);
    assert ([o] + Outcomes(more))[1..] == Outcomes(more) && ([segment] + more)[1..] == more;
  }

  lemma {:induction false} ComplaintsCons(segment: string, more: seq<string>, o: Outcome, complains: bool)
    requires o == Judge(Trim(segment), more == []) && complains == Complains(Trim(segment))
    ensures Complaints([segment] + more) == (if complains then 1 else 0) + if o.Bad? then 0 else Complaints(more)
  {
    assert ([segment] + more)[1..] == more;
  }

  lemma {:induction false} HeadFits(segment: string, more: seq<string>)
    requires LineFits([segment] + more)
    ensures SegmentFits(Trim(segment))
  {
  }

  lemma {:induction false} TrimIsEmpty(s: string)
    ensures Trim(s) == "" <==> SkipBlanks(s) == ""
  {
    TrimRightIs(SkipBlanks(s));
  }

  /** What is left to walk over when the cursor stands in front of `rest`, or nowhere. */
  function Unparsed(cursor: Option<nat>, rest: string): seq<string> {
    if cursor.None? then [] else Split(rest)
  }

  /** One segment: cut it off, judge it. */
  method NextSegment(line: array<char>, start: nat, buffer: array<char>, ghost rest: string,
                     ghost commands: seq<Command>, ghost deferred: bool)
    returns (next: Option<nat>, outcome: Outcome, complains: bool, ghost rest': string)
    requires line != buffer && buffer.Length == BUFFER_SIZE && Holds(line, start, rest) && LineFits(Split(rest))
    modifies line, buffer
    ensures next.Some? ==> Holds(line, next.value, rest')
    ensures |Unparsed(next, rest')| < |Split(rest)| && (outcome.Bad? || LineFits(Unparsed(next, rest')))
    ensures Walk(Outcomes(Split(rest)), commands, deferred)
            == match outcome
               case Parsed(c) => Walk(Outcomes(Unparsed(next, rest')), commands + [c], deferred)
               case OnlyRedirects => Walk(Outcomes(Unparsed(next, rest')), commands, true)
               case Bad(m) => Rejected(m)
    ensures Complaints(Split(rest))
            == (if complains then 1 else 0) + if outcome.Bad? then 0 else Complaints(Unparsed(next, rest'))
  {
    ghost var segment := rest[..FirstBar(rest)];
    SplitIsSegment(rest);
    HeadFits(segment, Remaining(rest));
    next := StrSep(line, start, rest);
    rest' := if next.None? then "" else rest[FirstBar(rest) + 1..];
    outcome, complains := JudgeSegment(line, start, next.None?, buffer, segment);
    WalkSegment(segment, Unparsed(next, rest'), commands, deferred, outcome);
    ComplaintsCons(segment, Unparsed(next, rest'), outcome, complains);
  }

  /** The loop over the segments between the bars. */
  method ParseSegments(line: array<char>, buffer: array<char>, ghost text: string)
    returns (verdict: Verdict, complaints: nat)
    requires line != buffer && buffer.Length == BUFFER_SIZE && Holds(line, 0, text) && LineFits(Split(text))
    modifies line, buffer
    ensures verdict == Walk(Outcomes(Split(text)), [], false) && complaints == Complaints(Split(text))
  {
    var commands, deferred := [], false;
    complaints := 0;
    var cursor: Option<nat> := Some(0);
    ghost var rest := text;
    while cursor.Some?
      invariant cursor.Some? ==> Holds(line, cursor.value, rest) && LineFits(Split(rest))
      invariant Walk(Outcomes(Split(text)), [], false) == Walk(Outcomes(Unparsed(cursor, rest)), commands, deferred)
      invariant Complaints(Split(text)) == complaints + Complaints(Unparsed(cursor, rest))
      decreases |Unparsed(cursor, rest)|
    {
      var outcome, complains;
      cursor, outcome, complains, rest := NextSegment(line, cursor.value, buffer, rest, commands, deferred);
      complaints := complaints + if complains then 1 else 0;
      match outcome
      case Bad(message) => return Rejected(message), complaints;
      case OnlyRedirects => deferred := true;
      case Parsed(command) => commands := commands + [command];
    }
    if commands == [] {
      return Ignored, complaints;
    }
    if deferred {
      return Rejected(EmptyPipe), complaints;
    }
    return Accepted(commands), complaints;
  }

  /**
   The whole parser: a blank line, the commands between the bars, or the message
   the line is rejected with; and the complaints about open quotes printed before.
   */
  method ParseLine(line: array<char>, buffer: array<char>, ghost text: string)
    returns (verdict: Verdict, complaints: nat)
    requires line != buffer && buffer.Length == BUFFER_SIZE && Holds(line, 0, text)
    requires LineFits(Split(TrimRight(text)))
    modifies line, buffer
    ensures verdict == Parse(text) && complaints == Diagnosed(text)
    ensures Due(text, verdict)
  {
    VerdictOnEveryLine(text, Parse(text));
    var trimmedLine := TrimLine(line, 0, text);
    HoldsRest(line, trimmedLine, Trim(text), 0);
    TrimIsEmpty(text);
    if line[trimmedLine] == NUL {
      return Ignored, 0;
    }
    verdict, complaints := ParseSegments(line, buffer, TrimRight(text));
  }
}
