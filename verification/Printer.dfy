/** Writing pipelines down, in any quoting and spacing, and reading them back. */
module Printer {
  import opened Wrappers
  import opened Tokenizer
  import opened Parser

  // ----- words to commands ------------------------------------------------

  datatype Part = Argument(word: string) | Redirect(operator: Operator, file: string)

  function Mark(op: Operator): string {
    match op
    case Input => "<"
    case Output => ">"
    case Error => "2>"
  }

  predicate Proper(p: Part) {
    OperatorOf(if p.Argument? then p.word else p.file).None?
  }

  predicate AllProper(parts: seq<Part>) {
    forall i :: 0 <= i < |parts| ==> Proper(parts[i])
  }

  function SpellPart(p: Part): seq<string> {
    if p.Argument? then [p.word] else [Mark(p.operator), p.file]
  }

  function ArgumentOf(p: Part): seq<string> {
    if p.Argument? then [p.word] else []
  }

  function FileOf(p: Part): map<Operator, string> {
    if p.Argument? then map[] else map[p.operator := p.file]
  }

  function Spell(parts: seq<Part>): seq<string> {
    if parts == [] then [] else SpellPart(parts[0]) + Spell(parts[1..])
  }

  function Arguments(parts: seq<Part>): seq<string> {
    if parts == [] then [] else ArgumentOf(parts[0]) + Arguments(parts[1..])
  }

  /** For each operator, the file named last. */
  function Files(parts: seq<Part>): map<Operator, string> {
    if parts == [] then map[] else FileOf(parts[0]) + Files(parts[1..])
  }

  function Build(c: Command, parts: seq<Part>): Command {
    Command(c.argv + Arguments(parts), c.files + Files(parts))
  }

  lemma {:induction false} PartsCons(p: Part, rest: seq<Part>)
    ensures Spell([p] + rest) == SpellPart(p) + Spell(rest)
    ensures Arguments([p] + rest) == ArgumentOf(p) + Arguments(rest)
    ensures Files([p] + rest) == FileOf(p) + Files(rest)
  {
    assert ([p] + rest)[1..] == rest;
  }

  lemma MapAssoc<K, V>(a: map<K, V>, b: map<K, V>, c: map<K, V>)
    ensures (a + b) + c == a + (b + c)
  {
  }

  lemma BuildCons(c: Command, p: Part, rest: seq<Part>)
    ensures Build(c, [p] + rest) == Build(Command(c.argv + ArgumentOf(p), c.files + FileOf(p)), rest)
  {
    PartsCons(p, rest);
    Assoc(c.argv, ArgumentOf(p), Arguments(rest));
    MapAssoc(c.files, FileOf(p), Files(rest));
  }

  /** One part more: the command the word loop goes on with. */
  lemma {:induction false} FillPart(c: Command, p: Part, rest: seq<string>)
    requires Proper(p)
    ensures Fill(c, SpellPart(p) + rest) == Fill(Command(c.argv + ArgumentOf(p), c.files + FileOf(p)), rest)
  {
    var words := SpellPart(p) + rest;
    if p.Argument? {
      assert words[1..] == rest;
      assert c.files + map[] == c.files;
    } else {
      MarkIsOperator(p.operator);
      assert words[2..] == rest && words[1] == p.file;
      assert c.argv + [] == c.argv;
      assert c.files + map[p.operator := p.file] == c.files[p.operator := p.file];
    }
  }

  lemma MarkIsOperator(op: Operator)
    ensures OperatorOf(Mark(op)) == Some(op)
  {
  }

  lemma OperatorIsMark(word: string)
    requires OperatorOf(word).Some?
    ensures word == Mark(OperatorOf(word).value)
  {
  }

  /** Words spelled by proper parts become the command those parts describe. */
  lemma {:induction false} FillBuilds(c: Command, parts: seq<Part>)
    requires AllProper(parts)
    ensures Fill(c, Spell(parts)) == Filled(Build(c, parts))
    decreases |parts|
  {
    if parts == [] {
      assert c.argv + [] == c.argv && c.files + map[] == c.files;
    } else {
      var p, rest := parts[0], parts[1..];
      assert parts == [p] + rest;
      BuildCons(c, p, rest);
      FillPart(c, p, Spell(rest));
      FillBuilds(Command(c.argv + ArgumentOf(p), c.files + FileOf(p)), rest);
    }
  }

  /** Words behind which no file name can be read: the end, or another operator. */
  predicate NoFile(rest: seq<string>) {
    rest == [] || OperatorOf(rest[0]).Some?
  }

  lemma FirstPart(words: seq<string>) returns (p: Part)
    requires words != [] && !(OperatorOf(words[0]).Some? && NoFile(words[1..]))
    ensures Proper(p) && |SpellPart(p)| <= |words| && words == SpellPart(p) + words[|SpellPart(p)|..]
  {
    if OperatorOf(words[0]).None? {
      p := Argument(words[0]);
    } else {
      OperatorIsMark(words[0]);
      p := Redirect(OperatorOf(words[0]).value, words[1]);
    }
  }

  /** Any words are proper parts, followed by nothing or by an operator without a file name. */
  lemma {:induction false} PartsOf(c: Command, words: seq<string>) returns (parts: seq<Part>, rest: seq<string>)
    ensures AllProper(parts) && words == Spell(parts) + rest
    ensures match Fill(c, words)
            case Filled(built) => rest == [] && built == Build(c, parts)
            case Missing(op) => rest != [] && rest[0] == Mark(op) && NoFile(rest[1..])
    decreases |words|
  {
    if words == [] {
      parts, rest := [], [];
      assert c.argv + [] == c.argv && c.files + map[] == c.files;
    } else if OperatorOf(words[0]).Some? && NoFile(words[1..]) {
      OperatorIsMark(words[0]);
      parts, rest := [], words;
    } else {
      var p := FirstPart(words);
      var more;
      more, rest := PartsOf(Command(c.argv + ArgumentOf(p), c.files + FileOf(p)), words[|SpellPart(p)|..]);
      parts := [p] + more;
      FillPart(c, p, words[|SpellPart(p)|..]);
      BuildCons(c, p, more);
      PartsCons(p, more);
      Assoc(SpellPart(p), Spell(more), rest);
    }
  }

  /** Exactly the words spelled by proper parts are accepted. */
  lemma {:induction false} FillIsTheGrammar(words: seq<string>, c: Command)
    ensures Fill(EMPTY, words) == Filled(c)
            <==> exists parts :: AllProper(parts) && Spell(parts) == words && Build(EMPTY, parts) == c
  {
    var parts, rest := PartsOf(EMPTY, words);
    if Fill(EMPTY, words) == Filled(c) {
      assert Spell(parts) + [] == Spell(parts);
    }
    if parts :| AllProper(parts) && Spell(parts) == words && Build(EMPTY, parts) == c {
      FillBuilds(EMPTY, parts);
    }
  }

  // ----- spelled-out segments ---------------------------------------------

  /** A word as it stands in a line: blanks, then the pieces that spell it. */
  datatype Written = Written(gap: string, pieces: seq<Piece>)

  function Text(ws: seq<Written>): string {
    if ws == [] then "" else ws[0].gap + Source(ws[0].pieces) + Text(ws[1..])
  }

  function Values(ws: seq<Written>): seq<string> {
    if ws == [] then [] else [Value(ws[0].pieces)] + Values(ws[1..])
  }

  function Gap(ws: seq<Written>): string {
    if ws == [] then "" else ws[0].gap
  }

  /** Words separated by blanks; a first gap may be empty, and only the very last word may end in a lone backslash. */
  ghost predicate Readable(ws: seq<Written>) {
    ws == [] ||
    (&& Blanks(ws[0].gap) && ws[0].pieces != [] && Word(ws[0].pieces, Gap(ws[1..]))
     && (|ws| > 1 ==> Gap(ws[1..]) != "") && Readable(ws[1..]))
  }

  lemma WordBefore(ps: seq<Piece>, gap: string, after: string)
    requires Word(ps, gap) && (gap == "" ==> after == "")
    ensures Word(ps, gap + after)
  {
  }

  predicate EndsDangling(ps: seq<Piece>) {
    ps != [] && ps[|ps| - 1].Dangling?
  }

  /** What may stand behind words: nothing, or a blank when no lone backslash ends them; behind no words, anything. */
  ghost predicate Follows(ws: seq<Written>, after: string) {
    ws != [] ==> Ends(after) && (EndsDangling(ws[|ws| - 1].pieces) ==> after == "")
  }

  lemma {:induction false} NextBehind(ws: seq<Written>, after: string)
    requires Readable(ws) && ws != [] && Follows(ws, after)
    ensures Next(Text(ws) + after) == Token(Some(Value(ws[0].pieces)), Text(ws[1..]) + after)
  {
    var rest := ws[1..];
    if rest == [] {
      assert "" + after == after;
    } else {
      Assoc(Gap(rest), Source(rest[0].pieces), Text(rest[1..]));
      Assoc(Gap(rest), Source(rest[0].pieces) + Text(rest[1..]), after);
      WordBefore(ws[0].pieces, Gap(rest), Source(rest[0].pieces) + Text(rest[1..]) + after);
    }
    Assoc(ws[0].gap + Source(ws[0].pieces), Text(rest), after);
    NextReadsWord(ws[0].gap, ws[0].pieces, Text(rest) + after);
  }

  lemma {:induction false} FollowsTail(ws: seq<Written>, after: string)
    requires Readable(ws) && ws != [] && Follows(ws, after)
    ensures Readable(ws[1..]) && Follows(ws[1..], after)
  {
    assert ws[1..] != [] ==> ws[1..][|ws[1..]| - 1] == ws[|ws| - 1];
  }

  /** The words are read one by one, and reading goes on behind them as if they had not been there. */
  lemma {:induction false} TokensBehind(ws: seq<Written>, after: string)
    requires Readable(ws) && Follows(ws, after)
    ensures Tokens(Text(ws) + after) == Values(ws) + Tokens(after)
    decreases |ws|
  {
    if ws == [] {
      assert "" + after == after;
    } else {
      NextBehind(ws, after);
      FollowsTail(ws, after);
      TokensCons(Text(ws) + after);
      TokensBehind(ws[1..], after);
      Assoc([Value(ws[0].pieces)], Values(ws[1..]), Tokens(after));
    }
  }

  lemma {:induction false} TokensOfText(ws: seq<Written>)
    requires Readable(ws)
    ensures Tokens(Text(ws)) == Values(ws)
  {
    TokensBehind(ws, "");
    assert Text(ws) + "" == Text(ws);
    assert Values(ws) + [] == Values(ws);
  }

  /**
   A quote that is not closed ends the words in front of it: neither it nor
   anything behind it is read, and the words in front stay.
   */
  lemma {:induction false} OpenQuoteEndsTheWords(ws: seq<Written>, after: string)
    requires Readable(ws) && Follows(ws, after) && OpenQuote(after)
    ensures Tokens(Text(ws) + after) == Values(ws)
  {
    TokensBehind(ws, after);
    assert Values(ws) + [] == Values(ws);
  }

  /** The words without the gap in front of them. */
  function Flush(ws: seq<Written>): (r: seq<Written>)
    requires ws != []
    ensures |r| == |ws|
  {
    [Written("", ws[0].pieces)] + ws[1..]
  }

  lemma {:induction false} FlushText(ws: seq<Written>)
    requires ws != []
    ensures Text(Flush(ws)) == Source(ws[0].pieces) + Text(ws[1..])
    ensures Text(ws) == ws[0].gap + Text(Flush(ws))
  {
    assert Flush(ws)[1..] == ws[1..];
    assert "" + Source(ws[0].pieces) == Source(ws[0].pieces);
    Assoc(ws[0].gap, Source(ws[0].pieces), Text(ws[1..]));
  }

  lemma {:induction false} FlushKeepsWords(ws: seq<Written>)
    requires Readable(ws) && ws != []
    ensures Readable(Flush(ws)) && Values(Flush(ws)) == Values(ws)
  {
    assert Flush(ws)[1..] == ws[1..];
  }

  lemma {:induction false} FlushStarts(ws: seq<Written>)
    requires Readable(ws) && ws != []
    ensures Text(Flush(ws)) != "" && !IsBlank(Text(Flush(ws))[0])
  {
    FlushText(ws);
    assert Word(ws[0].pieces, Gap(ws[1..]));
    WordIsNotBlank(ws[0].pieces);
  }

  /** Trimming takes off the gap in front and the blanks behind, and nothing else. */
  lemma TrimIs(gap: string, core: string, tail: string)
    requires Blanks(gap) && Blanks(tail) && core != "" && !IsBlank(core[0]) && !IsBlank(core[|core| - 1])
    ensures Trim(gap + core + tail) == core
  {
    assert gap + core + tail == gap + (core + tail);
    SkipsBlanks(gap, core + tail);
    TrimRightDrops(core, tail);
  }

  /** The one spelling that trimming damages: a last character that is a blank protected by a backslash only. */
  predicate EndsInEscapedBlank(ps: seq<Piece>) {
    ps != [] && ps[|ps| - 1].Escaped? && IsBlank(ps[|ps| - 1].c)
  }

  lemma {:induction false} SourceEnd(ps: seq<Piece>)
    requires Word(ps, "") && ps != []
    ensures Source(ps) != "" && (IsBlank(Source(ps)[|Source(ps)| - 1]) <==> EndsInEscapedBlank(ps))
  {
    if |ps| > 1 {
      assert ps[1..][|ps[1..]| - 1] == ps[|ps| - 1];
      SourceEnd(ps[1..]);
    } else {
      assert Source(ps) == PieceSource(ps[0]) + Source([]);
      assert Source(ps) == PieceSource(ps[0]);
    }
  }

  ghost predicate TextEndsBlank(ws: seq<Written>) {
    Text(ws) != "" && IsBlank(Text(ws)[|Text(ws)| - 1])
  }

  lemma {:induction false} TextEnd(ws: seq<Written>)
    requires Readable(ws) && ws != []
    ensures Text(ws) != "" && (TextEndsBlank(ws) <==> EndsInEscapedBlank(ws[|ws| - 1].pieces))
  {
    if |ws| > 1 {
      var rest := ws[1..];
      TextEnd(rest);
      assert Text(ws)[|Text(ws)| - 1] == Text(rest)[|Text(rest)| - 1];
    } else {
      SourceEnd(ws[0].pieces);
      assert Text(ws) == ws[0].gap + Source(ws[0].pieces) + Text([]);
    }
  }

  lemma {:induction false} TrimKeepsText(ws: seq<Written>, tail: string)
    requires Readable(ws) && ws != [] && Blanks(tail) && !EndsInEscapedBlank(ws[|ws| - 1].pieces)
    ensures Trim(Text(ws) + tail) == Text(Flush(ws)) && Text(Flush(ws)) != ""
    ensures Tokens(Text(Flush(ws))) == Values(ws)
  {
    FlushText(ws);
    FlushKeepsWords(ws);
    FlushStarts(ws);
    assert Flush(ws)[|ws| - 1].pieces == ws[|ws| - 1].pieces;
    TextEnd(Flush(ws));
    TrimIs(ws[0].gap, Text(Flush(ws)), tail);
    TokensOfText(Flush(ws));
  }

  /** The damaged word: its last piece has become a lone backslash. */
  function Damaged(ps: seq<Piece>): seq<Piece>
    requires ps != []
  {
    ps[..|ps| - 1] + [Dangling]
  }

  lemma {:induction false} SourceConcat(a: seq<Piece>, b: seq<Piece>)
    ensures Source(a + b) == Source(a) + Source(b) && Value(a + b) == Value(a) + Value(b)
  {
    if a == [] {
      assert a + b == b;
    } else {
      assert a + b == [a[0]] + (a[1..] + b);
      Cons(a[0], a[1..] + b);
      SourceConcat(a[1..], b);
      Assoc(PieceSource(a[0]), Source(a[1..]), Source(b));
      Assoc(PieceValue(a[0]), Value(a[1..]), Value(b));
    }
  }

  lemma {:induction false} SourceSnoc(ps: seq<Piece>, p: Piece)
    ensures Source(ps + [p]) == Source(ps) + PieceSource(p) && Value(ps + [p]) == Value(ps) + PieceValue(p)
  {
    SourceConcat(ps, [p]);
    Cons(p, []);
    assert [p] + [] == [p];
  }

  lemma EscapeIsDanglingAnd(source: string, value: string, c: char)
    ensures source + ['\\', c] == (source + "\\") + [c] && value + [c] == (value + "") + [c]
  {
  }

  lemma {:induction false} DamagedSource(ps: seq<Piece>)
    requires EndsInEscapedBlank(ps)
    ensures Source(ps) == Source(Damaged(ps)) + [ps[|ps| - 1].c]
    ensures Value(ps) == Value(Damaged(ps)) + [ps[|ps| - 1].c]
  {
    var init, c := ps[..|ps| - 1], ps[|ps| - 1].c;
    assert ps == init + [Escaped(c)];
    SourceSnoc(init, Escaped(c));
    SourceSnoc(init, Dangling);
    EscapeIsDanglingAnd(Source(init), Value(init), c);
  }

  function DamagedText(ws: seq<Written>): seq<Written>
    requires ws != [] && ws[|ws| - 1].pieces != []
  {
    ws[..|ws| - 1] + [Written(ws[|ws| - 1].gap, Damaged(ws[|ws| - 1].pieces))]
  }

  function LostBlank(ws: seq<Written>): string
    requires ws != [] && EndsInEscapedBlank(ws[|ws| - 1].pieces)
  {
    var last := ws[|ws| - 1].pieces;
    [last[|last| - 1].c]
  }

  lemma {:induction false} TextCons(w: Written, ws: seq<Written>)
    ensures Text([w] + ws) == w.gap + Source(w.pieces) + Text(ws)
    ensures Values([w] + ws) == [Value(w.pieces)] + Values(ws)
  {
    assert ([w] + ws)[1..] == ws;
  }

  lemma {:induction false} DamagedWord(w: Written)
    requires EndsInEscapedBlank(w.pieces)
    ensures var d := Written(w.gap, Damaged(w.pieces));
            Text([w]) == Text([d]) + LostBlank([w]) && Values([w]) != Values([d])
  {
    var d := Written(w.gap, Damaged(w.pieces));
    DamagedSource(w.pieces);
    TextCons(w, []);
    TextCons(d, []);
    assert [w] + [] == [w] && [d] + [] == [d];
    Assoc(w.gap, Source(d.pieces), LostBlank([w]));
    assert Values([w])[0] == Value(w.pieces) && Values([d])[0] == Value(d.pieces);
  }

  lemma {:induction false} TextConcat(a: seq<Written>, b: seq<Written>)
    ensures Text(a + b) == Text(a) + Text(b) && Values(a + b) == Values(a) + Values(b)
  {
    if a == [] {
      assert a + b == b;
    } else {
      assert a + b == [a[0]] + (a[1..] + b);
      TextCons(a[0], a[1..] + b);
      TextConcat(a[1..], b);
      Assoc(a[0].gap + Source(a[0].pieces), Text(a[1..]), Text(b));
    }
  }

  lemma {:induction false} DamagedIs(ws: seq<Written>)
    requires ws != [] && EndsInEscapedBlank(ws[|ws| - 1].pieces)
    ensures Text(ws) == Text(DamagedText(ws)) + LostBlank(ws)
    ensures Values(ws) != Values(DamagedText(ws))
  {
    var init, w := ws[..|ws| - 1], ws[|ws| - 1];
    var d := Written(w.gap, Damaged(w.pieces));
    assert ws == init + [w];
    TextConcat(init, [w]);
    TextConcat(init, [d]);
    DamagedWord(w);
    Assoc(Text(init), Text([d]), LostBlank(ws));
    var n := |Values(init)|;
    assert Values(ws)[n..] == Values([w]) && Values(DamagedText(ws))[n..] == Values([d]);
  }

  lemma {:induction false} DamagedIsReadable(ws: seq<Written>)
    requires Readable(ws) && ws != [] && EndsInEscapedBlank(ws[|ws| - 1].pieces)
    ensures Readable(DamagedText(ws)) && !EndsInEscapedBlank(DamagedText(ws)[|ws| - 1].pieces)
  {
    var ds := DamagedText(ws);
    if |ws| > 1 {
      DamagedIsReadable(ws[1..]);
      assert ds[1..] == DamagedText(ws[1..]) && ds[0] == ws[0];
      assert Gap(ds[1..]) == Gap(ws[1..]);
    } else {
      assert Word(Damaged(ws[0].pieces), "");
      assert ds[1..] == [];
    }
  }

  lemma {:induction false} DamagedReadsBack(ws: seq<Written>, tail: string)
    requires Readable(ws) && ws != [] && Blanks(tail) && EndsInEscapedBlank(ws[|ws| - 1].pieces)
    ensures Tokens(Trim(Text(ws) + tail)) == Values(DamagedText(ws)) && Trim(Text(ws) + tail) != ""
  {
    DamagedIs(ws);
    DamagedIsReadable(ws);
    Assoc(Text(DamagedText(ws)), LostBlank(ws), tail);
    TrimKeepsText(DamagedText(ws), LostBlank(ws) + tail);
  }

  /**
   The words of a segment are read back as they were written, through the
   trimming, exactly when the last one does not end in a blank that only a
   backslash protects: trimming takes that blank away and leaves the backslash.
   */
  lemma {:induction false} SegmentReadsBack(ws: seq<Written>, tail: string)
    requires Readable(ws) && ws != [] && Blanks(tail)
    ensures Tokens(Trim(Text(ws) + tail)) == Values(ws) <==> !EndsInEscapedBlank(ws[|ws| - 1].pieces)
    ensures Trim(Text(ws) + tail) != ""
  {
    if EndsInEscapedBlank(ws[|ws| - 1].pieces) {
      DamagedIs(ws);
      DamagedReadsBack(ws, tail);
    } else {
      TrimKeepsText(ws, tail);
    }
  }

  /** One stage: the words as written, the blanks behind them, and the parts they are meant to spell. */
  datatype Stage = Stage(words: seq<Written>, tail: string, parts: seq<Part>)

  function Segment(st: Stage): string {
    Text(st.words) + st.tail
  }

  ghost predicate Spelled(st: Stage) {
    && st.words != [] && Readable(st.words) && Blanks(st.tail)
    && !EndsInEscapedBlank(st.words[|st.words| - 1].pieces)
    && AllProper(st.parts) && Values(st.words) == Spell(st.parts) && Arguments(st.parts) != []
    && '|' !in Segment(st)
  }

  lemma JudgeReadsStage(st: Stage, last: bool)
    requires Spelled(st)
    ensures Judge(Trim(Segment(st)), last) == Parsed(Build(EMPTY, st.parts))
  {
    SegmentReadsBack(st.words, st.tail);
    FillBuilds(EMPTY, st.parts);
  }

  // ----- lines ------------------------------------------------------------

  function Join(segments: seq<string>): string
    requires segments != []
  {
    if |segments| == 1 then segments[0] else segments[0] + "|" + Join(segments[1..])
  }

  lemma {:induction false} SplitUndoesJoin(segments: seq<string>)
    requires segments != [] && forall i :: 0 <= i < |segments| ==> '|' !in segments[i]
    ensures Split(Join(segments)) == segments
  {
    if |segments| == 1 {
      NoBar(segments[0]);
      assert segments == [segments[0]];
    } else {
      SplitUndoesJoin(segments[1..]);
      SplitCons(segments[0], Join(segments[1..]));
    }
  }

  lemma {:induction false} WalkAccepts(os: seq<Outcome>, cs: seq<Command>, commands: seq<Command>)
    requires |os| == |cs| && forall i :: 0 <= i < |os| ==> os[i] == Parsed(cs[i])
    requires os != [] || commands != []
    ensures Walk(os, commands, false) == Accepted(commands + cs)
    decreases |os|
  {
    if os == [] {
      assert commands + cs == commands;
    } else {
      assert commands + cs == (commands + [cs[0]]) + cs[1..];
      WalkAccepts(os[1..], cs[1..], commands + [cs[0]]);
    }
  }

  lemma {:induction false} BlankLineHasNoCommand(line: string)
    ensures Blanks(line) ==> Outcomes(Split(line))[0].Bad?
  {
    BlankSkips(line);
    if Blanks(line) {
      NoBar(line);
    }
  }

  /** A line whose every segment is a command is accepted. */
  lemma {:induction false} ParseAccepts(line: string, cs: seq<Command>)
    requires Outcomes(Split(line)) == seq(|cs|, i requires 0 <= i < |cs| => Parsed(cs[i]))
    ensures Parse(line) == Accepted(cs)
  {
    var os := Outcomes(Split(line));
    BlankSkips(line);
    BlankLineHasNoCommand(line);
    OutcomesTrimmed(line);
    WalkAccepts(os, cs, []);
    assert [] + cs == cs;
  }

  function Segments(stages: seq<Stage>): seq<string> {
    seq(|stages|, i requires 0 <= i < |stages| => Segment(stages[i]))
  }

  function Meant(stages: seq<Stage>): seq<Command> {
    seq(|stages|, i requires 0 <= i < |stages| => Build(EMPTY, stages[i].parts))
  }

  /**
   Any way of writing a pipeline down reads back as that pipeline: whatever the
   quoting, the spacing and the order of arguments and redirections.
   */
  lemma ParseReadsPipeline(stages: seq<Stage>)
    requires stages != [] && forall i :: 0 <= i < |stages| ==> Spelled(stages[i])
    ensures Parse(Join(Segments(stages))) == Accepted(Meant(stages))
  {
    var segments, cs := Segments(stages), Meant(stages);
    SplitUndoesJoin(segments);
    forall i | 0 <= i < |stages| ensures Outcomes(segments)[i] == Parsed(cs[i]) {
      JudgeReadsStage(stages[i], i == |stages| - 1);
    }
    ParseAccepts(Join(segments), cs);
  }

  // ----- the canonical printer --------------------------------------------

  /** Operators stand as they are, everything else in single quotes. */
  function Show(word: string): string {
    if OperatorOf(word).Some? then word else SingleQuote(word)
  }

  function ShowAll(words: seq<string>): string {
    if words == [] then "" else " " + Show(words[0]) + ShowAll(words[1..])
  }

  function RedirectTo(c: Command, op: Operator): seq<Part> {
    if op in c.files then [Redirect(op, c.files[op])] else []
  }

  function ArgumentParts(argv: seq<string>): seq<Part> {
    if argv == [] then [] else [Argument(argv[0])] + ArgumentParts(argv[1..])
  }

  /** The arguments of a command, then its redirections. */
  function PartsFor(c: Command): seq<Part> {
    ArgumentParts(c.argv) + (RedirectTo(c, Input) + (RedirectTo(c, Output) + RedirectTo(c, Error)))
  }

  function Printed(cs: seq<Command>): seq<string> {
    seq(|cs|, i requires 0 <= i < |cs| => ShowAll(Spell(PartsFor(cs[i]))))
  }

  function Print(cs: seq<Command>): string
    requires cs != []
  {
    Join(Printed(cs))
  }

  lemma {:induction false} PartsConcat(a: seq<Part>, b: seq<Part>)
    ensures Arguments(a + b) == Arguments(a) + Arguments(b) && Files(a + b) == Files(a) + Files(b)
    ensures Spell(a + b) == Spell(a) + Spell(b)
  {
    if a == [] {
      assert a + b == b;
      assert map[] + Files(b) == Files(b);
    } else {
      var p, rest := a[0], a[1..];
      assert a + b == [p] + (rest + b);
      PartsCons(p, rest + b);
      PartsConcat(rest, b);
      Assoc(ArgumentOf(p), Arguments(rest), Arguments(b));
      Assoc(SpellPart(p), Spell(rest), Spell(b));
      MapAssoc(FileOf(p), Files(rest), Files(b));
    }
  }

  lemma {:induction false} ArgumentPartsBuild(argv: seq<string>)
    ensures Arguments(ArgumentParts(argv)) == argv && Files(ArgumentParts(argv)) == map[]
    ensures Spell(ArgumentParts(argv)) == argv
  {
    if argv != [] {
      var rest := ArgumentParts(argv[1..]);
      ArgumentPartsBuild(argv[1..]);
      PartsCons(Argument(argv[0]), rest);
    }
  }

  /** The file of one operator alone. */
  function FileFor(c: Command, op: Operator): map<Operator, string> {
    if op in c.files then map[op := c.files[op]] else map[]
  }

  lemma {:induction false} RedirectBuild(c: Command, op: Operator)
    ensures Arguments(RedirectTo(c, op)) == [] && Files(RedirectTo(c, op)) == FileFor(c, op)
  {
    if op in c.files {
      PartsCons(Redirect(op, c.files[op]), []);
      assert [Redirect(op, c.files[op])] + [] == RedirectTo(c, op);
      assert map[op := c.files[op]] + map[] == map[op := c.files[op]];
    }
  }

  lemma ThreeFiles(c: Command)
    ensures FileFor(c, Input) + (FileFor(c, Output) + FileFor(c, Error)) == c.files
  {
    forall op ensures op in FileFor(c, Input) + (FileFor(c, Output) + FileFor(c, Error)) <==> op in c.files {
      match op case Input => case Output => case Error =>
    }
  }

  lemma {:induction false} RedirectsBuild(c: Command)
    ensures var r := RedirectTo(c, Input) + (RedirectTo(c, Output) + RedirectTo(c, Error));
            Arguments(r) == [] && Files(r) == c.files
  {
    var i, o, e := RedirectTo(c, Input), RedirectTo(c, Output), RedirectTo(c, Error);
    RedirectBuild(c, Input);
    RedirectBuild(c, Output);
    RedirectBuild(c, Error);
    PartsConcat(o, e);
    PartsConcat(i, o + e);
    ThreeFiles(c);
  }

  lemma PartsForBuild(c: Command)
    ensures Build(EMPTY, PartsFor(c)) == c
  {
    ArgumentPartsBuild(c.argv);
    RedirectsBuild(c);
    PartsConcat(ArgumentParts(c.argv), RedirectTo(c, Input) + (RedirectTo(c, Output) + RedirectTo(c, Error)));
    assert c.argv + [] == c.argv && [] + c.argv == c.argv;
    assert map[] + c.files == c.files && map[] + (map[] + c.files) == c.files;
  }
}
