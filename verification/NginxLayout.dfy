/**
 Statements laid out on lines in any style, with indentation, white space, comments and blank
 lines of any kind, are read back one by one.
 */
module NginxLayout {
  import opened Wrappers
  import opened Text
  import opened NginxParser

  // ---------- Laying out a statement on a line ----------

  /** No quote, comment sign or line end. */
  predicate IsBare(s: string) {
    forall k :: 0 <= k < |s| ==> s[k] != '\'' && s[k] != '"' && s[k] != '#' && s[k] != '\n'
  }

  predicate IsBlank(s: string) {
    All(s, IsWhitespace) && IsBare(s)
  }

  /** What can follow a directive: bare text without outer white space or a final semicolon. */
  predicate IsArgument(s: string) {
    s != [] && IsBare(s) && Trimmed(s, IsWhitespace) && s[|s| - 1] != ';'
  }

  predicate IsPrintable(s: Statement) {
    match s
    case Open(kind, args) => IsWord(kind) && IsBare(kind) && IsBare(args) && Trimmed(args, IsWhitespace)
    case Close => true
    case Simple(directive, args) => IsWord(directive) && IsBare(directive) && IsArgument(args)
  }

  /** The statement with `gap` between its parts. */
  function Printed(s: Statement, gap: string): (r: string)
    ensures r != []
  {
    match s
    case Open(kind, args) => if args == [] then kind + gap + "{" else kind + gap + args + gap + "{"
    case Close => "}"
    case Simple(directive, args) => directive + gap + args + ";"
  }

  /** A word, white space and a trimmed text are told apart again. */
  lemma {:induction false} WordAndRest(word: string, gap: string, rest: string)
    requires IsWord(word) && gap != [] && All(gap, IsWhitespace) && Trimmed(rest, IsWhitespace)
    ensures SplitWord(word + gap + rest).0 == word && TrimSpace(SplitWord(word + gap + rest).1) == rest
  {
    assert word + gap + rest == word + (gap + rest);
    SplitWordOfWord(word, gap + rest);
    assert (gap + rest)[1..] == gap[1..] + rest + [];
    TrimOfPadded(gap[1..], rest, [], IsWhitespace);
  }

  lemma {:induction false} OpenWithoutArgsReadsBack(kind: string, gap: string)
    requires IsPrintable(Open(kind, [])) && IsBlank(gap)
    ensures ReadStatement(kind + gap + "{") == Open(kind, [])
  {
    var line := kind + gap + "{";
    assert line[..|line| - 1] == [] + kind + gap;
    TrimOfPadded([], kind, gap, IsWhitespace);
    SplitWordOfWord(kind, []);
    assert kind + [] == kind;
  }

  lemma {:induction false} OpenWithArgsReadsBack(kind: string, args: string, gap: string)
    requires IsPrintable(Open(kind, args)) && args != [] && gap != [] && IsBlank(gap)
    ensures ReadStatement(kind + gap + args + gap + "{") == Open(kind, args)
  {
    var body := kind + gap + args;
    var line := body + gap + "{";
    assert line[..|line| - 1] == [] + body + gap;
    assert body[0] == kind[0] && body[|body| - 1] == args[|args| - 1];
    TrimOfPadded([], body, gap, IsWhitespace);
    WordAndRest(kind, gap, args);
  }

  lemma {:induction false} TrimmedSimpleReads(directive: string, gap: string, args: string)
    requires IsWord(directive) && gap != [] && All(gap, IsWhitespace)
    requires args != [] && Trimmed(args, IsWhitespace) && args[|args| - 1] != ';'
    ensures ReadStatement(directive + gap + args + ";") == Simple(directive, args)
  {
    var line, ended := directive + gap + args + ";", args + ";";
    assert line == directive + gap + ended && line[|line| - 1] == ';';
    WordAndRest(directive, gap, ended);
    TrimEndOfPadded(args, ";", IsSemicolon);
  }

  lemma {:induction false} PrintedIsBare(s: Statement, gap: string)
    requires IsPrintable(s) && IsBlank(gap)
    ensures IsBare(Printed(s, gap)) && Trimmed(Printed(s, gap), IsWhitespace)
  {
  }

  /** How one statement is laid out: lines before it, and white space and a comment on its line. */
  datatype Layout = Layout(filler: seq<string>, indent: string, gap: string, trail: string, comment: Option<string>)
  {
    predicate Valid() {
      && (forall k :: 0 <= k < |filler| ==> IsFiller(filler[k]))
      && IsBlank(indent) && IsBlank(gap) && gap != [] && IsBlank(trail)
      && (comment.Some? ==> '\n' !in comment.value)
    }
  }

  /** A blank line or a comment line. */
  predicate IsFiller(line: string) {
    '\n' !in line && (All(line, IsWhitespace) || "#" <= TrimSpace(line))
  }

  function LineOf(s: Statement, layout: Layout): string {
    var line := layout.indent + Printed(s, layout.gap) + layout.trail;
    match layout.comment
    case None => line
    case Some(c) => line + ("#" + c)
  }

  lemma {:induction false} BareStaysOutside(s: string)
    requires IsBare(s)
    ensures QuotingAfter(s) == Outside
  {
    if s != [] {
      BareStaysOutside(s[..|s| - 1]);
    }
  }

  /** The comment of a bare text starts at the first comment sign. */
  lemma {:induction false} CommentAfterBare(text: string, rest: string)
    requires IsBare(text) && (rest != [] ==> rest[0] == '#')
    ensures CommentFrom(text + rest, 0) == if rest == [] then None else Some(|text|)
  {
    var line := text + rest;
    assert forall k :: 0 <= k < |text| ==> line[k] == text[k];
    if rest != [] {
      assert line[..|text|] == text;
      BareStaysOutside(text);
      assert StartsComment(line, |text|);
    }
  }

  lemma {:induction false} UncommentedLine(text: string, trail: string, rest: string)
    requires text != [] && IsBare(text) && Trimmed(text, IsWhitespace) && IsBlank(trail)
    requires rest != [] && rest[0] == '#'
    ensures Uncommented(text + trail + rest) == text
  {
    var line := text + trail + rest;
    CommentAfterBare(text + trail, rest);
    assert line[..|text + trail|] == text + trail;
    TrimEndOfPadded(text, trail, IsWhitespace);
  }

  lemma {:induction false} UncommentedReads(indent: string, text: string, trail: string)
    requires text != [] && IsBare(text) && Trimmed(text, IsWhitespace) && IsBlank(indent) && IsBlank(trail)
    ensures ReadLine(indent + text + trail) == Some(ReadStatement(text))
  {
    TrimOfPadded(indent, text, trail, IsWhitespace);
    CommentAfterBare(text, []);
    assert text + [] == text;
  }

  /** Trimming a commented line keeps the text and the start of the comment. */
  lemma {:induction false} TrimCommented(indent: string, text: string, tail: string) returns (rest: string)
    requires text != [] && !IsWhitespace(text[0]) && All(indent, IsWhitespace)
    requires tail != [] && tail[0] == '#'
    ensures TrimSpace(indent + text + tail) == text + rest
    ensures rest != [] && rest[0] == '#'
  {
    assert indent + text + tail == indent + (text + tail);
    TrimStartOfPadded(indent, text + tail, IsWhitespace);
    TrimEndOfTail(text, tail, IsWhitespace);
    TrimEndShape(tail, IsWhitespace);
    rest := TrimEnd(tail, IsWhitespace);
  }

  lemma {:induction false} CommentedReads(indent: string, text: string, trail: string, tail: string)
    requires text != [] && IsBare(text) && Trimmed(text, IsWhitespace) && IsBlank(indent) && IsBlank(trail)
    requires tail != [] && tail[0] == '#'
    ensures ReadLine(indent + text + trail + tail) == Some(ReadStatement(text))
  {
    assert indent + text + trail == indent + (text + trail);
    var rest := TrimCommented(indent, text + trail, tail);
    assert (text + trail + rest)[0] == text[0];
    UncommentedLine(text, trail, rest);
  }

  /** White space around a statement and a comment after it do not change what is read. */
  lemma {:induction false} LineReads(s: Statement, layout: Layout)
    requires IsPrintable(s) && layout.Valid()
    ensures ReadLine(LineOf(s, layout)) == Some(s)
  {
    var text := Printed(s, layout.gap);
    PrintedIsBare(s, layout.gap);
    PrintedReadsBack(s, layout.gap);
    match layout.comment
    case None => UncommentedReads(layout.indent, text, layout.trail);
    case Some(c) => CommentedReads(layout.indent, text, layout.trail, "#" + c);
  }

  lemma {:induction false} PrintedReadsBack(s: Statement, gap: string)
    requires IsPrintable(s) && gap != [] && IsBlank(gap)
    ensures ReadStatement(Printed(s, gap)) == s
  {
    match s
    case Open(kind, args) =>
      if args == [] {
        OpenWithoutArgsReadsBack(kind, gap);
      } else {
        OpenWithArgsReadsBack(kind, args, gap);
      }
    case Close =>
    case Simple(directive, args) => TrimmedSimpleReads(directive, gap, args);
  }

  // ---------- Laying out a text ----------

  type Style = nat -> Layout

  predicate AllPrintable(statements: seq<Statement>) {
    forall i :: 0 <= i < |statements| ==> IsPrintable(statements[i])
  }

  /** Lines before each statement and a line for it; the first statement is number `i` of the text. */
  function Lay(filler: nat -> seq<string>, line: (Statement, nat) -> string, statements: seq<Statement>,
               i: nat): seq<string> {
    if statements == [] then []
    else filler(i) + [line(statements[0], i)] + Lay(filler, line, statements[1..], i + 1)
  }

  function Fillers(style: Style): nat -> seq<string> {
    (i: nat) => style(i).filler
  }

  function Printer(style: Style): (Statement, nat) -> string {
    (s: Statement, i: nat) => LineOf(s, style(i))
  }

  ghost predicate AllValid(style: Style) {
    forall i :: style(i).Valid()
  }

  function LinesOf(statements: seq<Statement>, style: Style): seq<string> {
    Lay(Fillers(style), Printer(style), statements, 0)
  }

  function TextOf(statements: seq<Statement>, style: Style): string {
    Join(LinesOf(statements, style), '\n')
  }

  function Unnumbered(statements: seq<Numbered>): (r: seq<Statement>)
    ensures |r| == |statements|
  {
    if statements == [] then [] else [statements[0].1] + Unnumbered(statements[1..])
  }

  lemma {:induction false} UnnumberedJoin(a: seq<Numbered>, b: seq<Numbered>)
    ensures Unnumbered(a + b) == Unnumbered(a) + Unnumbered(b)
  {
    if a == [] {
      assert a + b == b;
    } else {
      assert (a + b)[1..] == a[1..] + b;
      UnnumberedJoin(a[1..], b);
    }
  }

  lemma {:induction false} Prepend(read: string -> Option<Statement>, line: string, lines: seq<string>, n: nat)
    ensures ReadAll(read, [line] + lines, n) == Said(read(line), n) + ReadAll(read, lines, n + 1)
  {
    assert ([line] + lines)[1..] == lines;
  }

  lemma {:induction false} ReadsNothing(read: string -> Option<Statement>, filler: seq<string>, lines: seq<string>,
                                        n: nat)
    requires forall k :: 0 <= k < |filler| ==> read(filler[k]).None?
    ensures ReadAll(read, filler + lines, n) == ReadAll(read, lines, n + |filler|)
  {
    if filler == [] {
      assert filler + lines == lines;
    } else {
      assert filler + lines == [filler[0]] + (filler[1..] + lines);
      Prepend(read, filler[0], filler[1..] + lines, n);
      ReadsNothing(read, filler[1..], lines, n + 1);
    }
  }

  /** Every line either says nothing or says its statement. */
  ghost predicate ReadsBack(read: string -> Option<Statement>, filler: nat -> seq<string>,
                            line: (Statement, nat) -> string, statements: seq<Statement>)
  {
    && (forall i, k :: 0 <= k < |filler(i)| ==> read(filler(i)[k]).None?)
    && (forall i, k :: 0 <= k < |statements| ==> read(line(statements[k], i)) == Some(statements[k]))
  }

  lemma {:induction false} LinesRead(read: string -> Option<Statement>, filler: nat -> seq<string>,
                                     line: (Statement, nat) -> string, statements: seq<Statement>, i: nat, n: nat)
    requires ReadsBack(read, filler, line, statements)
    ensures Unnumbered(ReadAll(read, Lay(filler, line, statements, i), n)) == statements
  {
    if statements != [] {
      var before, own, rest := filler(i), line(statements[0], i), Lay(filler, line, statements[1..], i + 1);
      assert before + [own] + rest == before + ([own] + rest);
      ReadsNothing(read, before, [own] + rest, n);
      Prepend(read, own, rest, n + |before|);
      LinesRead(read, filler, line, statements[1..], i + 1, n + |before| + 1);
      UnnumberedJoin([(n + |before|, statements[0])], ReadAll(read, rest, n + |before| + 1));
    }
  }

  lemma {:induction false} LaidLines(filler: nat -> seq<string>, line: (Statement, nat) -> string,
                                     statements: seq<Statement>, i: nat, good: string -> bool)
    requires forall j, k :: 0 <= k < |filler(j)| ==> good(filler(j)[k])
    requires forall j, k :: 0 <= k < |statements| ==> good(line(statements[k], j))
    ensures forall k :: 0 <= k < |Lay(filler, line, statements, i)| ==> good(Lay(filler, line, statements, i)[k])
  {
    if statements != [] {
      LaidLines(filler, line, statements[1..], i + 1, good);
    }
  }

  lemma {:induction false} FillerReads(line: string)
    requires IsFiller(line)
    ensures ReadLine(line).None?
  {
    TrimKeeps(line, IsWhitespace);
  }

  lemma {:induction false} LinesReadBack(statements: seq<Statement>, style: Style)
    requires AllPrintable(statements) && AllValid(style)
    ensures ReadsBack(ReadLine, Fillers(style), Printer(style), statements)
  {
    forall i: nat, k | 0 <= k < |Fillers(style)(i)|
      ensures ReadLine(Fillers(style)(i)[k]).None?
    {
      assert style(i).Valid();
      FillerReads(style(i).filler[k]);
    }
    forall i: nat, k | 0 <= k < |statements|
      ensures ReadLine(Printer(style)(statements[k], i)) == Some(statements[k])
    {
      assert style(i).Valid();
      LineReads(statements[k], style(i));
    }
  }

  predicate IsOneLine(line: string) {
    '\n' !in line
  }

  lemma {:induction false} LinesAreOneLine(statements: seq<Statement>, style: Style)
    requires AllPrintable(statements) && AllValid(style)
    ensures forall k :: 0 <= k < |LinesOf(statements, style)| ==> IsOneLine(LinesOf(statements, style)[k])
  {
    forall i: nat, k | 0 <= k < |Fillers(style)(i)|
      ensures IsOneLine(Fillers(style)(i)[k])
    {
      assert style(i).Valid();
      assert IsFiller(style(i).filler[k]);
    }
    forall i: nat, k | 0 <= k < |statements|
      ensures IsOneLine(Printer(style)(statements[k], i))
    {
      assert style(i).Valid();
    }
    LaidLines(Fillers(style), Printer(style), statements, 0, IsOneLine);
  }

  /** Every text made of statements reads as those statements. */
  lemma {:induction false} TextReads(statements: seq<Statement>, style: Style)
    requires AllPrintable(statements) && AllValid(style)
    ensures Unnumbered(Statements(Split(TextOf(statements, style), '\n'), 1)) == statements
  {
    var lines := LinesOf(statements, style);
    LinesReadBack(statements, style);
    LinesRead(ReadLine, Fillers(style), Printer(style), statements, 0, 1);
    if statements == [] {
      assert Split([], '\n') == [[]];
      var blank: seq<string> := [[]];
      ReadsNothing(ReadLine, blank, [], 1);
      assert blank + [] == blank;
    } else {
      LinesAreOneLine(statements, style);
      SplitOfJoin(lines, '\n');
    }
  }

  // ---------- Quoted arguments ----------

  predicate IsQuote(c: char) {
    c == '\'' || c == '"'
  }

  /** Inside quotes a text without that quote stays inside. */
  lemma {:induction false} StaysInside(before: string, quote: char, inner: string)
    requires IsQuote(quote) && IsBare(before) && quote !in inner
    ensures QuotingAfter(before + [quote] + inner) == if quote == '"' then Double else Single
  {
    var s := before + [quote] + inner;
    if inner == [] {
      assert s[..|s| - 1] == before;
      BareStaysOutside(before);
    } else {
      assert s[..|s| - 1] == before + [quote] + inner[..|inner| - 1];
      StaysInside(before, quote, inner[..|inner| - 1]);
    }
  }

  /** No comment starts in quoted text, nor in bare text around it. */
  lemma {:induction false} QuotedHasNoComment(before: string, quote: char, inner: string, after: string, i: nat)
    requires IsQuote(quote) && IsBare(before) && quote !in inner && IsBare(after)
    ensures !StartsComment(before + [quote] + inner + [quote] + after, i)
  {
    var s := before + [quote] + inner + [quote] + after;
    if i < |before| {
      assert s[i] == before[i];
    } else if |before| < i <= |before| + |inner| {
      assert s[..i] == before + [quote] + inner[..i - |before| - 1];
      StaysInside(before, quote, inner[..i - |before| - 1]);
    } else if |before| + |inner| + 1 < i < |s| {
      assert s[i] == after[i - |before| - |inner| - 2];
    }
  }

  lemma {:induction false} QuotedIsUncommented(before: string, quote: char, inner: string, after: string)
    requires IsQuote(quote) && IsBare(before) && quote !in inner && IsBare(after)
    ensures var line := before + [quote] + inner + [quote] + after; Uncommented(line) == line
  {
    var line := before + [quote] + inner + [quote] + after;
    if CommentFrom(line, 0).Some? {
      QuotedHasNoComment(before, quote, inner, after, CommentFrom(line, 0).value);
    }
  }

  /** An argument in quotes, single or double, is read whole whatever comment signs, semicolons, braces
      or other quotes it holds. */
  lemma {:induction false} QuotedArgumentReads(indent: string, directive: string, gap: string, quote: char,
                                               inner: string)
    requires IsBlank(indent) && IsWord(directive) && IsBare(directive) && IsBlank(gap) && gap != []
    requires IsQuote(quote) && quote !in inner
    ensures var args := [quote] + inner + [quote];
            ReadLine(indent + (directive + gap + args + ";") + []) == Some(Simple(directive, args))
  {
    var args := [quote] + inner + [quote];
    var line := directive + gap + args + ";";
    assert line[0] == directive[0] && line[|line| - 1] == ';';
    TrimOfPadded(indent, line, [], IsWhitespace);
    assert line == directive + gap + [quote] + inner + [quote] + ";";
    QuotedIsUncommented(directive + gap, quote, inner, ";");
    TrimmedSimpleReads(directive, gap, args);
  }
}
