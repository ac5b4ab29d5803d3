/**
 Splitting SQL scripts: the splitter of the database command, the independently written one of the
 migration tests, and a recursive lexer both are compared with.

 Scripts are strings of characters. The bytes the two splitters compare with are ASCII, and no
 ASCII byte occurs inside a longer UTF-8 character, so a loop over bytes and a loop over characters
 cut a valid UTF-8 script at the same places.
 */
module SqlSplitter {
  import opened Strings
  import opened Wrappers

  datatype SplitError = DelimiterInsideStatement | UnsupportedDelimiter | Unterminated | Empty

  type Statements = Result<seq<string>, SplitError>

  // ----- text ----------------------------------------------------------------------------------------

  // The text at position i starts with p.
  predicate At(src: string, i: nat, p: string) { i + |p| <= |src| && src[i..i + |p|] == p }

  // The position of the next line feed, or the end.
  function LineEnd(src: string, i: nat): (j: nat)
    requires i <= |src|
    ensures i <= j <= |src|
    decreases |src| - i
  {
    if i == |src| || src[i] == '\n' then i else LineEnd(src, i + 1)
  }

  const DIRECTIVE := "DELIMITER "

  predicate LineStart(src: string, i: nat) { i == 0 || (i <= |src| && src[i - 1] == '\n') }

  predicate DirectiveAt(src: string, i: nat) { LineStart(src, i) && At(src, i, DIRECTIVE) }

  predicate IsQuote(c: char) { c == '\'' || c == '"' || c == '`' }

  // ----- the lexer ---------------------------------------------------------------------------------

  // The position after the quote that closes a literal, when scanning from i inside it.
  function QuoteEnd(src: string, i: nat, q: char): (r: Option<nat>)
    ensures r.Some? ==> i < r.value <= |src|
    decreases |src| - i
  {
    if i >= |src| then None
    else if src[i] == '\\' && q != '`' && i + 1 < |src| then QuoteEnd(src, i + 2, q)
    else if src[i] == q then
      if i + 1 < |src| && src[i + 1] == q then QuoteEnd(src, i + 2, q) else Some(i + 1)
    else QuoteEnd(src, i + 1, q)
  }

  // The position after the end of a block comment, when scanning from i inside it.
  function BlockEnd(src: string, i: nat): (r: Option<nat>)
    ensures r.Some? ==> i < r.value <= |src|
    decreases |src| - i
  {
    if i + 1 >= |src| then None
    else if src[i] == '*' && src[i + 1] == '/' then Some(i + 2)
    else BlockEnd(src, i + 1)
  }

  // How many characters open a line comment at i; 0 if none does.
  function LineCommentAt(src: string, i: nat): nat
    requires i < |src|
  {
    if src[i] == '-' && i + 1 < |src| && src[i + 1] == '-' then 2 else if src[i] == '#' then 1 else 0
  }

  predicate BlockCommentAt(src: string, i: nat)
    requires i < |src|
  { src[i] == '/' && i + 1 < |src| && src[i + 1] == '*' }

  function AddStatement(done: seq<string>, cur: string): seq<string> {
    var statement := TrimSpace(cur);
    if statement == "" then done else done + [statement]
  }

  function Finish(cur: string, delim: string, done: seq<string>): Statements {
    if delim != ";" then Err(Unterminated)
    else
      var all := AddStatement(done, cur);
      if |all| == 0 then Err(Empty) else Ok(all)
  }

  // One token at a time: comments become blanks, literals are kept, a delimiter ends a statement.
  // `directives` tells whether DELIMITER lines are recognised.
  function Lex(src: string, i: nat, cur: string, delim: string, done: seq<string>, directives: bool): Statements
    requires |delim| > 0 && i <= |src|
    decreases |src| - i
  {
    if i == |src| then Finish(cur, delim, done)
    else if directives && DirectiveAt(src, i) then
      if TrimSpace(cur) != "" then Err(DelimiterInsideStatement)
      else
        var end := LineEnd(src, i + |DIRECTIVE|);
        var next := TrimSpace(src[i + |DIRECTIVE|..end]);
        if next != ";" && next != "//" then Err(UnsupportedDelimiter)
        else Lex(src, end, cur, next, done, directives)
    else if At(src, i, delim) then Lex(src, i + |delim|, "", delim, AddStatement(done, cur), directives)
    else LexToken(src, i, cur, delim, done, directives)
  }

  function LexToken(src: string, i: nat, cur: string, delim: string, done: seq<string>, directives: bool): Statements
    requires |delim| > 0 && i < |src|
    decreases |src| - i, 0
  {
    if LineCommentAt(src, i) > 0 then
      var end := LineEnd(src, i + LineCommentAt(src, i));
      if end == |src| then Finish(cur + " ", delim, done)
      else Lex(src, end + 1, cur + " \n", delim, done, directives)
    else if BlockCommentAt(src, i) then
      match BlockEnd(src, i + 2)
      case None => Err(Unterminated)
      case Some(j) => Lex(src, j, cur + "  ", delim, done, directives)
    else if IsQuote(src[i]) then
      match QuoteEnd(src, i + 1, src[i])
      case None => Err(Unterminated)
      case Some(j) => Lex(src, j, cur + src[i..j], delim, done, directives)
    else Lex(src, i + 1, cur + [src[i]], delim, done, directives)
  }

  // What the splitter of the database command computes.
  function Split(src: string): Statements { Lex(src, 0, "", ";", [], true) }

  // What the splitter of the migration tests computes: it knows no directives.
  function SplitPlain(src: string): Statements { Lex(src, 0, "", ";", [], false) }

  // ----- single steps of the lexer -----------------------------------------------------------------

  lemma DirectiveText(src: string, i: nat)
    ensures At(src, i, DIRECTIVE) ==> src[i] == 'D' && forall k | i <= k < i + |DIRECTIVE| :: src[k] != ';'
  {
    if At(src, i, DIRECTIVE) {
      forall k | i <= k < i + |DIRECTIVE| ensures src[k] == DIRECTIVE[k - i] != ';' {
        assert src[i..i + |DIRECTIVE|][k - i] == src[k];
      }
    }
  }

  lemma SeparatorStep(src: string, i: nat, cur: string, done: seq<string>, directives: bool)
    requires i < |src| && src[i] == ';'
    ensures Lex(src, i, cur, ";", done, directives) == Lex(src, i + 1, "", ";", AddStatement(done, cur), directives)
  {
    assert src[i..i + 1] == ";";
    DirectiveText(src, i);
  }

  lemma TokenOnly(src: string, i: nat, cur: string, done: seq<string>, directives: bool)
    requires i < |src| && src[i] != ';' && (directives ==> !DirectiveAt(src, i))
    ensures Lex(src, i, cur, ";", done, directives) == LexToken(src, i, cur, ";", done, directives)
  {
    assert src[i..i + 1][0] == src[i];
  }

  // ----- the loops -------------------------------------------------------------------------------

  // State of a loop: outside everything, or inside a literal or a comment.
  datatype Mode = Normal | Quoted(q: char) | LineComment | BlockComment

  // What remains to be computed from a loop state.
  function Rest(
      src: string, i: nat, mode: Mode, cur: string, delim: string, done: seq<string>, directives: bool): Statements
    requires |delim| > 0 && i <= |src|
  {
    match mode
    case Normal => Lex(src, i, cur, delim, done, directives)
    case Quoted(q) =>
      (match QuoteEnd(src, i, q)
       case None => Err(Unterminated)
       case Some(j) => Lex(src, j, cur + src[i..j], delim, done, directives))
    case LineComment =>
      var end := LineEnd(src, i);
      if end == |src| then Finish(cur, delim, done) else Lex(src, end + 1, cur + "\n", delim, done, directives)
    case BlockComment =>
      (match BlockEnd(src, i)
       case None => Err(Unterminated)
       case Some(j) => Lex(src, j, cur + " ", delim, done, directives))
  }

  // Inside a literal the loop copies one or two characters, or closes it.
  lemma QuotedStep(src: string, i: nat, q: char, cur: string, delim: string, done: seq<string>, directives: bool)
    requires |delim| > 0 && i < |src|
    ensures var here := Rest(src, i, Quoted(q), cur, delim, done, directives);
      if src[i] == '\\' && q != '`' && i + 1 < |src| then
        here == Rest(src, i + 2, Quoted(q), cur + [src[i]] + [src[i + 1]], delim, done, directives)
      else if src[i] == q then
        if i + 1 < |src| && src[i + 1] == q then
          here == Rest(src, i + 2, Quoted(q), cur + [src[i]] + [src[i + 1]], delim, done, directives)
        else here == Rest(src, i + 1, Normal, cur + [src[i]], delim, done, directives)
      else here == Rest(src, i + 1, Quoted(q), cur + [src[i]], delim, done, directives)
  {
    if QuoteEnd(src, i, q).Some? {
      var j := QuoteEnd(src, i, q).value;
      if i + 1 < j { assert cur + [src[i]] + src[i + 1..j] == cur + src[i..j]; }
      if i + 2 <= j { assert cur + [src[i]] + [src[i + 1]] + src[i + 2..j] == cur + src[i..j]; }
      assert src[i..i + 1] == [src[i]];
    }
  }

  lemma TokenStep(src: string, i: nat, cur: string, delim: string, done: seq<string>, directives: bool)
    requires |delim| > 0 && i < |src|
    ensures var here := LexToken(src, i, cur, delim, done, directives);
      if LineCommentAt(src, i) > 0 then
        here == Rest(src, i + LineCommentAt(src, i), LineComment, cur + " ", delim, done, directives)
      else if BlockCommentAt(src, i) then
        here == Rest(src, i + 2, BlockComment, cur + " ", delim, done, directives)
      else if IsQuote(src[i]) then
        here == Rest(src, i + 1, Quoted(src[i]), cur + [src[i]], delim, done, directives)
      else here == Rest(src, i + 1, Normal, cur + [src[i]], delim, done, directives)
  {
    assert cur + " " + "\n" == cur + " \n";
    assert cur + " " + " " == cur + "  ";
    if IsQuote(src[i]) && QuoteEnd(src, i + 1, src[i]).Some? {
      var j := QuoteEnd(src, i + 1, src[i]).value;
      assert cur + [src[i]] + src[i + 1..j] == cur + src[i..j];
    }
  }

  // The loop variables of both splitters; a quote of NUL means none.
  const NO_QUOTE: char := '\0'

  function ModeOf(quote: char, lineComment: bool, blockComment: bool): Mode {
    if lineComment then LineComment else if blockComment then BlockComment
    else if quote != NO_QUOTE then Quoted(quote) else Normal
  }

  // One character inside a comment.
  method CommentCharacter(source: string, i: nat, line: bool, current: string,
                          ghost delim: string, ghost done: seq<string>, ghost directives: bool)
    returns (inside: bool, next: nat, text: string)
    requires i < |source| && |delim| > 0
    ensures i < next <= |source|
    ensures Rest(source, next, ModeOf(NO_QUOTE, inside && line, inside && !line), text, delim, done, directives)
         == Rest(source, i, if line then LineComment else BlockComment, current, delim, done, directives)
  {
    inside, next, text := true, i + 1, current;
    if line {
      if source[i] == '\n' { inside, text := false, current + "\n"; }
    } else if source[i] == '*' && i + 1 < |source| && source[i + 1] == '/' {
      inside, next, text := false, i + 2, current + " ";
    }
  }

  // One character inside a literal.
  method QuotedCharacter(source: string, i: nat, quote: char, current: string,
                         ghost delim: string, ghost done: seq<string>, ghost directives: bool)
    returns (open: char, next: nat, text: string)
    requires i < |source| && |delim| > 0 && quote != NO_QUOTE
    ensures i < next <= |source|
    ensures Rest(source, next, ModeOf(open, false, false), text, delim, done, directives)
         == Rest(source, i, Quoted(quote), current, delim, done, directives)
  {
    QuotedStep(source, i, quote, current, delim, done, directives);
    open, next, text := quote, i, current + [source[i]];
    if source[i] == '\\' && quote != '`' && i + 1 < |source| {
      next := next + 1;
      text := text + [source[next]];
    } else if source[i] == quote {
      if i + 1 < |source| && source[i + 1] == quote {
        next := next + 1;
        text := text + [source[next]];
      } else {
        open := NO_QUOTE;
      }
    }
    next := next + 1;
  }

  /** The loop of the database command. */
  method SplitSQLStatements(source: string) returns (r: Statements)
    ensures r == Split(source)
  {
    var statements: seq<string> := [];
    var current := "";
    var quote, lineComment, blockComment, delimiter := NO_QUOTE, false, false, ";";
    var i := 0;
    while i < |source|
      invariant 0 <= i <= |source| && |delimiter| > 0
      invariant !(lineComment && blockComment) && (lineComment || blockComment ==> quote == NO_QUOTE)
      invariant Rest(source, i, ModeOf(quote, lineComment, blockComment), current, delimiter, statements, true)
             == Split(source)
    {
      var character := source[i];
      if lineComment {
        lineComment, i, current := CommentCharacter(source, i, true, current, delimiter, statements, true);
        continue;
      }
      if blockComment {
        blockComment, i, current := CommentCharacter(source, i, false, current, delimiter, statements, true);
        continue;
      }
      if quote != NO_QUOTE {
        quote, i, current := QuotedCharacter(source, i, quote, current, delimiter, statements, true);
        continue;
      }
      if DirectiveAt(source, i) {
        if TrimSpace(current) != "" { return Err(DelimiterInsideStatement); }
        var end := LineEnd(source, i + |DIRECTIVE|);
        delimiter := TrimSpace(source[i + |DIRECTIVE|..end]);
        if delimiter != ";" && delimiter != "//" { return Err(UnsupportedDelimiter); }
        i := end;
        continue;
      }
      if At(source, i, delimiter) {
        statements := AddStatement(statements, current);
        current := "";
        i := i + |delimiter|;
        continue;
      }
      TokenStep(source, i, current, delimiter, statements, true);
      if character == '-' && i + 1 < |source| && source[i + 1] == '-' {
        lineComment := true;
        current := current + " ";
        i := i + 1;
      } else if character == '#' {
        lineComment := true;
        current := current + " ";
      } else if character == '/' && i + 1 < |source| && source[i + 1] == '*' {
        blockComment := true;
        current := current + " ";
        i := i + 1;
      } else if character == '\'' || character == '"' || character == '`' {
        quote := character;
        current := current + [character];
      } else {
        current := current + [character];
      }
      i := i + 1;
    }
    if quote != NO_QUOTE || blockComment || delimiter != ";" { return Err(Unterminated); }
    statements := AddStatement(statements, current);
    if |statements| == 0 { return Err(Empty); }
    return Ok(statements);
  }

  /** The loop of the migration tests. */
  method SplitMigrationSQL(source: string) returns (r: Statements)
    ensures r == SplitPlain(source)
  {
    var statements: seq<string> := [];
    var current := "";
    var quote, lineComment, blockComment := NO_QUOTE, false, false;
    var i := 0;
    while i < |source|
      invariant 0 <= i <= |source|
      invariant !(lineComment && blockComment) && (lineComment || blockComment ==> quote == NO_QUOTE)
      invariant Rest(source, i, ModeOf(quote, lineComment, blockComment), current, ";", statements, false)
             == SplitPlain(source)
    {
      var character := source[i];
      if lineComment {
        lineComment, i, current := CommentCharacter(source, i, true, current, ";", statements, false);
        continue;
      }
      if blockComment {
        blockComment, i, current := CommentCharacter(source, i, false, current, ";", statements, false);
        continue;
      }
      if quote != NO_QUOTE {
        quote, i, current := QuotedCharacter(source, i, quote, current, ";", statements, false);
        continue;
      }
      if character == ';' {
        SeparatorStep(source, i, current, statements, false);
      } else {
        TokenOnly(source, i, current, statements, false);
        TokenStep(source, i, current, ";", statements, false);
      }
      if character == '-' && i + 1 < |source| && source[i + 1] == '-' {
        lineComment := true;
        current := current + " ";
        i := i + 1;
      } else if character == '#' {
        lineComment := true;
        current := current + " ";
      } else if character == '/' && i + 1 < |source| && source[i + 1] == '*' {
        blockComment := true;
        current := current + " ";
        i := i + 1;
      } else if character == '\'' || character == '"' || character == '`' {
        quote := character;
        current := current + [character];
      } else if character == ';' {
        statements := AddStatement(statements, current);
        current := "";
      } else {
        current := current + [character];
      }
      i := i + 1;
    }
    if quote != NO_QUOTE || blockComment { return Err(Unterminated); }
    statements := AddStatement(statements, current);
    if |statements| == 0 { return Err(Empty); }
    return Ok(statements);
  }
}
