/**
 The shell's tokenizer, as a function on the characters of a line, and the
 quoting grammar it recognises. Lines are C strings: their NUL is not part of
 the sequence.
 */
module Tokenizer {
  import opened Wrappers

  predicate IsBlank(c: char) {
    c == ' ' || c == '\t'
  }

  /** A word ends where the line ends or a blank follows. */
  predicate Ends(after: string) {
    after == "" || IsBlank(after[0])
  }

  datatype Mode = Outside | InSingle | InDouble

  /** Where a scan stopped: its quoting mode, the characters it wrote and the number it read. */
  datatype Scanned = Scanned(mode: Mode, text: string, used: nat)

  function More(written: string, read: nat, r: Scanned): Scanned {
    Scanned(r.mode, written + r.text, read + r.used)
  }

  /**
   Reads up to the end of a word, or to the end of the line inside an unmatched
   quote. On any input it never writes more characters than it has read.
   */
  function Scan(mode: Mode, s: string): (r: Scanned)
    ensures |r.text| <= r.used <= |s|
    decreases |s|
  {
    if s == "" then Scanned(mode, "", 0)
    else
      match mode
      case Outside =>
        if IsBlank(s[0]) then Scanned(Outside, "", 0)
        else if s[0] == '\'' then More("", 1, Scan(InSingle, s[1..]))
        else if s[0] == '"' then More("", 1, Scan(InDouble, s[1..]))
        else if s[0] != '\\' then More([s[0]], 1, Scan(Outside, s[1..]))
        else if |s| == 1 then Scanned(Outside, "", 1)
        else More([s[1]], 2, Scan(Outside, s[2..]))
      case InSingle =>
        if s[0] == '\'' then More("", 1, Scan(Outside, s[1..]))
        else More([s[0]], 1, Scan(InSingle, s[1..]))
      case InDouble =>
        if s[0] == '"' then More("", 1, Scan(Outside, s[1..]))
        else if s[0] != '\\' then More([s[0]], 1, Scan(InDouble, s[1..]))
        else if |s| > 1 && s[1] == 'n' then More("\n", 2, Scan(InDouble, s[2..]))
        else if |s| > 1 && (s[1] == '"' || s[1] == '\\') then More([s[1]], 2, Scan(InDouble, s[2..]))
        else More("\\", 1, Scan(InDouble, s[1..]))
  }

  /** Apart from newlines and kept backslashes, only characters that were read are written. */
  lemma {:induction false} ScanAddsNothing(mode: Mode, s: string, c: char)
    requires c !in s && c != '\n' && c != '\\'
    ensures c !in Scan(mode, s).text
    decreases |s|
  {
    if s != "" && !(mode.Outside? && IsBlank(s[0])) {
      match mode
      case Outside =>
        if s[0] == '\'' {
          ScanAddsNothing(InSingle, s[1..], c);
        } else if s[0] == '"' {
          ScanAddsNothing(InDouble, s[1..], c);
        } else if s[0] != '\\' {
          ScanAddsNothing(Outside, s[1..], c);
        } else if |s| > 1 {
          ScanAddsNothing(Outside, s[2..], c);
        }
      case InSingle => ScanAddsNothing(if s[0] == '\'' then Outside else InSingle, s[1..], c);
      case InDouble =>
        ScanAddsNothing(if s[0] == '"' then Outside else InDouble, s[1..], c);
        if |s| > 1 {
          ScanAddsNothing(InDouble, s[2..], c);
        }
    }
  }

  // ----- the quoting grammar ----------------------------------------------

  /** Between double quotes: a plain character, one of the three escapes, or a backslash kept with what follows it. */
  datatype Item = Plain(c: char) | Escape(c: char) | Kept(c: char)

  /** A word is a run of pieces; `Dangling` is a lone backslash at the end of the line. */
  datatype Piece =
    | Bare(c: char)
    | Escaped(c: char)
    | Single(body: string)
    | Double(items: seq<Item>)
    | Dangling

  const ESCAPABLE := {'n', '"', '\\'}

  predicate ItemOk(i: Item) {
    match i
    case Plain(c) => c != '"' && c != '\\'
    case Escape(c) => c in ESCAPABLE
    case Kept(c) => c !in ESCAPABLE
  }

  function ItemSource(i: Item): string {
    if i.Plain? then [i.c] else ['\\', i.c]
  }

  function ItemValue(i: Item): string {
    match i
    case Plain(c) => [c]
    case Escape(c) => if c == 'n' then "\n" else [c]
    case Kept(c) => ['\\', c]
  }

  function ItemsSource(items: seq<Item>): string {
    if items == [] then "" else ItemSource(items[0]) + ItemsSource(items[1..])
  }

  function ItemsValue(items: seq<Item>): string {
    if items == [] then "" else ItemValue(items[0]) + ItemsValue(items[1..])
  }

  predicate PieceOk(p: Piece) {
    match p
    case Bare(c) => !IsBlank(c) && c != '\'' && c != '"' && c != '\\'
    case Escaped(c) => true
    case Single(body) => '\'' !in body
    case Double(items) => forall i :: 0 <= i < |items| ==> ItemOk(items[i])
    case Dangling => true
  }

  function PieceSource(p: Piece): (s: string)
    ensures s != ""
  {
    match p
    case Bare(c) => [c]
    case Escaped(c) => ['\\', c]
    case Single(body) => "'" + (body + "'")
    case Double(items) => "\"" + (ItemsSource(items) + "\"")
    case Dangling => "\\"
  }

  function PieceValue(p: Piece): string {
    match p
    case Bare(c) => [c]
    case Escaped(c) => [c]
    case Single(body) => body
    case Double(items) => ItemsValue(items)
    case Dangling => ""
  }

  function Source(ps: seq<Piece>): string {
    if ps == [] then "" else PieceSource(ps[0]) + Source(ps[1..])
  }

  function Value(ps: seq<Piece>): string {
    if ps == [] then "" else PieceValue(ps[0]) + Value(ps[1..])
  }

  /** The pieces form a word that the text `after` does not continue. */
  ghost predicate Word(ps: seq<Piece>, after: string) {
    && Ends(after)
    && (forall i :: 0 <= i < |ps| ==> PieceOk(ps[i]))
    && (forall i :: 0 <= i < |ps| && ps[i].Dangling? ==> i == |ps| - 1 && after == "")
  }

  // ----- the scan reads the grammar ---------------------------------------

  lemma {:induction false} ScansSingle(body: string, after: string)
    requires '\'' !in body
    ensures Scan(InSingle, body + "'" + after) == More(body, |body| + 1, Scan(Outside, after))
  {
    var s := body + "'" + after;
    if body == "" {
      assert s[1..] == after;
    } else {
      assert s[1..] == body[1..] + "'" + after;
      ScansSingle(body[1..], after);
    }
  }

  lemma Regroup(a: string, b: string, c: string, d: string)
    ensures (a + b) + c + d == a + (b + c + d)
  {
  }

  lemma MoreTwice(a: string, m: nat, b: string, n: nat, r: Scanned)
    ensures More(a, m, More(b, n, r)) == More(a + b, m + n, r)
  {
    assert a + (b + r.text) == (a + b) + r.text;
  }

  lemma {:induction false} ScansItem(i: Item, rest: string)
    requires ItemOk(i)
    ensures Scan(InDouble, ItemSource(i) + rest) == More(ItemValue(i), |ItemSource(i)|, Scan(InDouble, rest))
  {
    var s := ItemSource(i) + rest;
    if i.Plain? {
      assert s[1..] == rest;
    } else {
      assert s[1..] == [i.c] + rest;
      assert s[2..] == rest && s[1..][1..] == rest;
    }
  }

  lemma {:induction false} ScansDouble(items: seq<Item>, after: string)
    requires forall i :: 0 <= i < |items| ==> ItemOk(items[i])
    ensures Scan(InDouble, ItemsSource(items) + "\"" + after)
            == More(ItemsValue(items), |ItemsSource(items)| + 1, Scan(Outside, after))
  {
    if items == [] {
      assert (ItemsSource(items) + "\"" + after)[1..] == after;
    } else {
      var item, more := items[0], items[1..];
      Regroup(ItemSource(item), ItemsSource(more), "\"", after);
      ScansItem(item, ItemsSource(more) + "\"" + after);
      ScansDouble(more, after);
      MoreTwice(ItemValue(item), |ItemSource(item)|, ItemsValue(more), |ItemsSource(more)| + 1, Scan(Outside, after));
    }
  }

  lemma ScansQuote(mode: Mode, inner: string, after: string)
    requires !mode.Outside?
    ensures var q := if mode.InSingle? then "'" else "\"";
            Scan(Outside, q + (inner + q) + after) == More("", 1, Scan(mode, inner + q + after))
  {
    var q := if mode.InSingle? then "'" else "\"";
    assert (q + (inner + q) + after)[1..] == inner + q + after;
  }

  lemma {:induction false} ScansPiece(p: Piece, after: string)
    requires PieceOk(p) && (p.Dangling? ==> after == "")
    ensures Scan(Outside, PieceSource(p) + after) == More(PieceValue(p), |PieceSource(p)|, Scan(Outside, after))
  {
    match p
    case Single(body) =>
      ScansQuote(InSingle, body, after);
      ScansSingle(body, after);
    case Double(items) =>
      ScansQuote(InDouble, ItemsSource(items), after);
      ScansDouble(items, after);
    case Bare(c) => assert ([c] + after)[1..] == after;
    case Escaped(c) => assert (['\\', c] + after)[2..] == after;
    case Dangling => assert "\\" + after == "\\";
  }

  /** Every word of the grammar is scanned to its value, and the scan stops right behind it. */
  lemma {:induction false} ScansWord(ps: seq<Piece>, after: string)
    requires Word(ps, after)
    ensures Scan(Outside, Source(ps) + after) == Scanned(Outside, Value(ps), |Source(ps)|)
  {
    if ps == [] {
      assert Source(ps) + after == after;
    } else {
      var rest := Source(ps[1..]) + after;
      assert Source(ps) + after == PieceSource(ps[0]) + rest;
      ScansPiece(ps[0], rest);
      ScansWord(ps[1..], after);
    }
  }

  // ----- and nothing else -------------------------------------------------

  lemma {:induction false} SingleBody(s: string) returns (body: string, after: string)
    requires Scan(InSingle, s).mode.Outside?
    ensures s == body + "'" + after && '\'' !in body
    decreases |s|
  {
    if s[0] == '\'' {
      body, after := "", s[1..];
    } else {
      body, after := SingleBody(s[1..]);
      body := [s[0]] + body;
    }
  }

  lemma FirstItem(s: string) returns (i: Item, after: string)
    requires s != "" && s[0] != '"' && Scan(InDouble, s).mode.Outside?
    ensures s == ItemSource(i) + after && ItemOk(i) && Scan(InDouble, after).mode.Outside?
  {
    if s[0] != '\\' {
      i, after := Plain(s[0]), s[1..];
    } else {
      i, after := if s[1] in ESCAPABLE then Escape(s[1]) else Kept(s[1]), s[2..];
      ScansItem(i, after);
      assert s == ItemSource(i) + after;
    }
  }

  lemma {:induction false} DoubleItems(s: string) returns (items: seq<Item>, after: string)
    requires Scan(InDouble, s).mode.Outside?
    ensures s == ItemsSource(items) + "\"" + after && forall i :: 0 <= i < |items| ==> ItemOk(items[i])
    decreases |s|
  {
    if s[0] == '"' {
      items, after := [], s[1..];
    } else {
      var item, rest := FirstItem(s);
      items, after := DoubleItems(rest);
      Regroup(ItemSource(item), ItemsSource(items), "\"", after);
      items := [item] + items;
    }
  }

  lemma FirstPiece(s: string) returns (p: Piece, after: string)
    requires s != "" && !IsBlank(s[0]) && Scan(Outside, s).mode.Outside?
    ensures s == PieceSource(p) + after && PieceOk(p) && (p.Dangling? ==> after == "")
  {
    if s[0] == '\'' {
      var body;
      body, after := SingleBody(s[1..]);
      p := Single(body);
    } else if s[0] == '"' {
      var items;
      items, after := DoubleItems(s[1..]);
      p := Double(items);
    } else if s[0] != '\\' {
      p, after := Bare(s[0]), s[1..];
    } else if |s| == 1 {
      p, after := Dangling, "";
    } else {
      p, after := Escaped(s[1]), s[2..];
    }
  }

  lemma {:induction false} Cons(p: Piece, ps: seq<Piece>)
    ensures Source([p] + ps) == PieceSource(p) + Source(ps) && Value([p] + ps) == PieceValue(p) + Value(ps)
  {
    assert ([p] + ps)[1..] == ps;
  }

  lemma Cut(s: string, n: nat)
    requires n <= |s|
    ensures s[..n] + s[n..] == s
  {
  }

  lemma SplitAt(a: string, b: string, m: nat)
    requires m <= |b|
    ensures (a + b)[|a| + m..] == b[m..] && (a + b)[..|a| + m] == a + b[..m]
  {
  }

  /** Whatever the scan accepts is spelled by some word of the grammar. */
  lemma {:induction false} WordOf(s: string) returns (ps: seq<Piece>)
    requires Scan(Outside, s).mode.Outside?
    ensures var r := Scan(Outside, s);
            Word(ps, s[r.used..]) && Source(ps) == s[..r.used] && Value(ps) == r.text
    decreases |s|
  {
    if Ends(s) {
      ps := [];
    } else {
      var p, after := FirstPiece(s);
      ScansPiece(p, after);
      var rest := WordOf(after);
      Cons(p, rest);
      SplitAt(PieceSource(p), after, Scan(Outside, after).used);
      ps := [p] + rest;
    }
  }

  lemma {:induction false} ScansWordOf(s: string, ps: seq<Piece>, used: nat)
    requires used <= |s| && Word(ps, s[used..]) && Source(ps) == s[..used]
    ensures Scan(Outside, s) == Scanned(Outside, Value(ps), used)
  {
    ScansWord(ps, s[used..]);
    Cut(s, used);
  }

  /**
   The scan is the grammar: it stops outside quotes after reading `s[..used]`
   and writing `text` exactly when that prefix is a word with that value and
   the rest does not continue it.
   */
  lemma {:induction false} ScanIsTheGrammar(s: string, text: string, used: nat)
    requires used <= |s|
    ensures Scan(Outside, s) == Scanned(Outside, text, used)
            <==> exists ps :: Word(ps, s[used..]) && Source(ps) == s[..used] && Value(ps) == text
  {
    if Scan(Outside, s) == Scanned(Outside, text, used) {
      var ps := WordOf(s);
    }
    if ps :| Word(ps, s[used..]) && Source(ps) == s[..used] && Value(ps) == text {
      ScansWordOf(s, ps, used);
    }
  }

  // ----- tokens -----------------------------------------------------------

  function SkipBlanks(s: string): (r: string)
    ensures |r| <= |s|
    ensures r != "" ==> !IsBlank(r[0])
  {
    if s != "" && IsBlank(s[0]) then SkipBlanks(s[1..]) else s
  }

  datatype Token = Token(word: Option<string>, rest: string)

  /** The next word and the input behind it; an unmatched quote yields nothing and leaves the input where it was. */
  function Next(s: string): (t: Token)
    ensures t.word.Some? ==> |t.rest| < |s|
    ensures |t.rest| <= |s|
  {
    var p := SkipBlanks(s);
    if p == "" then Token(None, "")
    else
      var r := Scan(Outside, p);
      if r.mode.Outside? then Token(Some(r.text), p[r.used..]) else Token(None, s)
  }

  /** No word is found because a quote is not matched; the source says so on its error output. */
  predicate OpenQuote(s: string) {
    SkipBlanks(s) != "" && !Scan(Outside, SkipBlanks(s)).mode.Outside?
  }

  /** The words of a line up to its end or to the first unmatched quote. */
  function Tokens(s: string): seq<string>
    decreases |s|
  {
    var t := Next(s);
    if t.word.None? then [] else [t.word.value] + Tokens(t.rest)
  }

  lemma {:induction false} TokensCons(text: string)
    requires Next(text).word.Some?
    ensures Tokens(text) == [Next(text).word.value] + Tokens(Next(text).rest)
  {
  }

  ghost predicate Blanks(s: string) {
    forall i :: 0 <= i < |s| ==> IsBlank(s[i])
  }

  lemma {:induction false} SkipsBlanks(gap: string, s: string)
    requires Blanks(gap) && (s == "" || !IsBlank(s[0]))
    ensures SkipBlanks(gap + s) == s
  {
    if gap == "" {
      assert gap + s == s;
    } else {
      assert (gap + s)[1..] == gap[1..] + s;
      SkipsBlanks(gap[1..], s);
    }
  }

  lemma {:induction false} WordIsNotBlank(ps: seq<Piece>)
    requires ps != [] && PieceOk(ps[0])
    ensures Source(ps) != "" && !IsBlank(Source(ps)[0])
  {
    assert Source(ps)[0] == PieceSource(ps[0])[0];
  }

  /** However a word is spelled, the next token behind any blanks is its value, and the input stops right behind it. */
  lemma {:induction false} NextReadsWord(gap: string, ps: seq<Piece>, after: string)
    requires Blanks(gap) && ps != [] && Word(ps, after)
    ensures Next(gap + Source(ps) + after) == Token(Some(Value(ps)), after)
  {
    WordIsNotBlank(ps);
    var s := Source(ps) + after;
    assert gap + Source(ps) + after == gap + s;
    SkipsBlanks(gap, s);
    ScansWord(ps, after);
    assert s[|Source(ps)|..] == after;
  }

  // ----- printers ---------------------------------------------------------

  /** The single-quote printer: a quote inside the word closes, escapes and reopens. */
  function SingleBodyText(w: string): string {
    if w == "" then "'"
    else (if w[0] == '\'' then "'\\''" else [w[0]]) + SingleBodyText(w[1..])
  }

  function SingleQuote(w: string): string {
    "'" + SingleBodyText(w)
  }

  /** The double-quote printer escapes the quote, the backslash and the newline. */
  function DoubleItem(c: char): (i: Item)
    ensures ItemOk(i) && ItemValue(i) == [c]
  {
    if c == '"' || c == '\\' then Escape(c) else if c == '\n' then Escape('n') else Plain(c)
  }

  function DoubleQuote(w: string): string {
    "\"" + ItemsSource(seq(|w|, i requires 0 <= i < |w| => DoubleItem(w[i]))) + "\""
  }

  /** The pieces the printers use. */
  predicate Tidy(p: Piece) {
    PieceOk(p) && !p.Dangling? && (p.Escaped? ==> p.c == '\'')
  }

  /** The text printed for `w` inside an open quote: `body` closes it, the pieces `ps` follow. */
  ghost predicate Tail(w: string, body: string, ps: seq<Piece>) {
    && SingleBodyText(w) == body + "'" + Source(ps) && w == body + Value(ps)
    && '\'' !in body
    && forall i :: 0 <= i < |ps| ==> Tidy(ps[i])
  }

  lemma Reopened(body: string, after: string)
    ensures "'\\''" + (body + "'" + after) == "" + "'" + (['\\', '\''] + ("'" + (body + "'") + after))
  {
    var rest := body + "'" + after;
    assert "'" + (body + "'") + after == ['\''] + rest;
    assert ['\\', '\''] + (['\''] + rest) == ['\\', '\'', '\''] + rest;
    assert "" + "'" + (['\\', '\'', '\''] + rest) == ['\'', '\\', '\'', '\''] + rest;
  }

  lemma TailOfQuote(w: string, body: string, ps: seq<Piece>)
    requires w != "" && w[0] == '\'' && Tail(w[1..], body, ps)
    ensures Tail(w, "", [Escaped('\'')] + ([Single(body)] + ps))
  {
    var qs := [Single(body)] + ps;
    Cons(Single(body), ps);
    Cons(Escaped('\''), qs);
    Reopened(body, Source(ps));
    assert w == ['\''] + w[1..];
  }

  lemma TailOfPlain(w: string, body: string, ps: seq<Piece>)
    requires w != "" && w[0] != '\'' && Tail(w[1..], body, ps)
    ensures Tail(w, [w[0]] + body, ps)
  {
    Regroup([w[0]], body, "'", Source(ps));
    Regroup([w[0]], body, Value(ps), "");
    assert body + Value(ps) + "" == w[1..] && [w[0]] + w[1..] == w;
    assert [w[0]] + body + Value(ps) + "" == [w[0]] + body + Value(ps);
  }

  lemma {:induction false} SingleQuoteTail(w: string) returns (body: string, ps: seq<Piece>)
    ensures Tail(w, body, ps)
  {
    if w == "" {
      body, ps := "", [];
    } else {
      var inner, rest := SingleQuoteTail(w[1..]);
      if w[0] == '\'' {
        TailOfQuote(w, inner, rest);
        body, ps := "", [Escaped('\'')] + ([Single(inner)] + rest);
      } else {
        TailOfPlain(w, inner, rest);
        body, ps := [w[0]] + inner, rest;
      }
    }
  }

  lemma SingleQuoteIsAWord(w: string) returns (ps: seq<Piece>)
    ensures ps != [] && Source(ps) == SingleQuote(w) && Value(ps) == w
    ensures forall i :: 0 <= i < |ps| ==> Tidy(ps[i])
  {
    var body, tail := SingleQuoteTail(w);
    ps := [Single(body)] + tail;
    assert ps[1..] == tail;
  }

  lemma {:induction false} ItemsSpell(w: string)
    ensures ItemsValue(seq(|w|, i requires 0 <= i < |w| => DoubleItem(w[i]))) == w
  {
    var items := seq(|w|, i requires 0 <= i < |w| => DoubleItem(w[i]));
    if w != "" {
      ItemsSpell(w[1..]);
      assert items[1..] == seq(|w[1..]|, i requires 0 <= i < |w[1..]| => DoubleItem(w[1..][i]));
    }
  }

  lemma DoubleQuoteIsAWord(w: string) returns (ps: seq<Piece>)
    ensures ps != [] && Source(ps) == DoubleQuote(w) && Value(ps) == w
    ensures forall i :: 0 <= i < |ps| ==> Tidy(ps[i])
  {
    var items := seq(|w|, i requires 0 <= i < |w| => DoubleItem(w[i]));
    ItemsSpell(w);
    ps := [Double(items)];
    assert Source(ps) == PieceSource(ps[0]) + Source([]);
    assert Value(ps) == PieceValue(ps[0]) + Value([]);
  }

  /** Tokenizing undoes both printers for every string, and stops exactly at the separator behind. */
  lemma NextUndoesQuoting(gap: string, w: string, after: string)
    requires Blanks(gap) && Ends(after)
    ensures Next(gap + SingleQuote(w) + after) == Token(Some(w), after)
    ensures Next(gap + DoubleQuote(w) + after) == Token(Some(w), after)
  {
    var single := SingleQuoteIsAWord(w);
    NextReadsWord(gap, single, after);
    var double := DoubleQuoteIsAWord(w);
    NextReadsWord(gap, double, after);
  }
}
