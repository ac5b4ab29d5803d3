/**
 What the database command makes of whole scripts: statements under the delimiter in force, DELIMITER
 lines that change it, comment lines. The meaning of a script is stated on these parts; the splitter
 finds it from the text alone.
 */
module SqlScripts {
  import opened Sequences
  import opened Strings
  import opened Wrappers
  import opened SqlSplitter
  import opened SqlSplitterProofs

  // ----- parts of a script -------------------------------------------------------------------------

  datatype Part =
    | Stmt(text: string)                    // the text, the delimiter in force, a line feed
    | Use(name: string)                     // a DELIMITER line
    | Note(mark: string, text: string)      // a comment up to the end of its line
    | BlockNote(text: string)               // a block comment and a line feed
    | Pending(text: string)                 // a text no delimiter follows, and a line feed

  predicate Supported(name: string) { TrimSpace(name) == ";" || TrimSpace(name) == "//" }

  function InForce(part: Part, delim: string): string {
    if part.Use? && Supported(part.name) then TrimSpace(part.name) else delim
  }

  function RenderPart(part: Part, delim: string): string {
    match part
    case Stmt(text) => text + (delim + "\n")
    case Use(name) => "DELIMITER " + (name + "\n")
    case Note(mark, text) => mark + (text + "\n")
    case BlockNote(text) => "/*" + (text + "*/\n")
    case Pending(text) => text + "\n"
  }

  function Render(parts: seq<Part>, delim: string): string
    decreases |parts|
  {
    if parts == [] then "" else RenderPart(parts[0], delim) + Render(parts[1..], InForce(parts[0], delim))
  }

  // No comment and no delimiter outside literals, and every literal closed.
  predicate CleanFor(s: string, i: nat, delim: string)
    decreases |s| - i
  {
    i >= |s|
    || (!CommentAt(s, i) && !At(s, i, delim) && NextPos(s, i).Some? && CleanFor(s, NextPos(s, i).value, delim))
  }

  // A statement under the delimiter: trimmed, closed, without comments, delimiters and directives of its own.
  predicate StatementFor(s: string, delim: string) {
    && s != "" && TrimSpace(s) == s && CleanFor(s, 0, delim) && DirectiveFree(s, 0)
    && (delim == "//" ==> s[|s| - 1] != '/')
  }

  predicate OneLine(s: string) { '\n' !in s }

  predicate NoBlockEnd(s: string) { forall k | 0 <= k < |s| - 1 :: !(s[k] == '*' && s[k + 1] == '/') }

  predicate PartOk(part: Part, delim: string) {
    match part
    case Stmt(text) => StatementFor(text, delim)
    case Use(name) => OneLine(name)
    case Note(mark, text) => (mark == "--" || mark == "#") && OneLine(text)
    case BlockNote(text) => NoBlockEnd(text)
    case Pending(text) => StatementFor(text, delim)
  }

  // A pending text is followed by a directive, or by nothing.
  predicate WellFormed(parts: seq<Part>, delim: string)
    decreases |parts|
  {
    parts == []
    || (&& PartOk(parts[0], delim)
        && (parts[0].Pending? && |parts| > 1 ==> parts[1].Use?)
        && WellFormed(parts[1..], InForce(parts[0], delim)))
  }

  // The statements of a script, or why it is refused.
  function Meaning(parts: seq<Part>, delim: string, done: seq<string>): Statements
    decreases |parts|
  {
    if parts == [] then if delim != ";" then Err(Unterminated) else if done == [] then Err(Empty) else Ok(done)
    else
      match parts[0]
      case Stmt(text) => Meaning(parts[1..], delim, done + [text])
      case Use(name) =>
        if Supported(name) then Meaning(parts[1..], TrimSpace(name), done) else Err(UnsupportedDelimiter)
      case Note(_, _) => Meaning(parts[1..], delim, done)
      case BlockNote(_) => Meaning(parts[1..], delim, done)
      case Pending(text) =>
        if |parts| > 1 then Err(DelimiterInsideStatement)
        else if delim != ";" then Err(Unterminated) else Ok(done + [text])
  }

  // ----- blank space around a statement ------------------------------------------------------------

  predicate AllBlank(s: string) { forall c | c in s :: IsSpace(c) }

  lemma {:induction false} BlankInFront(b: string, s: string)
    requires AllBlank(b)
    ensures TrimLeft(b + s) == TrimLeft(s)
    decreases |b|
  {
    if b == "" {
      assert b + s == s;
    } else {
      assert (b + s)[1..] == b[1..] + s;
      BlankInFront(b[1..], s);
    }
  }

  lemma {:induction false} BlankBehind(s: string, b: string)
    requires AllBlank(b)
    ensures TrimRight(s + b) == TrimRight(s)
    decreases |b|
  {
    if b == "" {
      assert s + b == s;
    } else {
      assert (s + b)[..|s + b| - 1] == s + b[..|b| - 1];
      BlankBehind(s, b[..|b| - 1]);
    }
  }

  lemma TrimmedInBlank(b: string, s: string, c: string)
    requires AllBlank(b) && AllBlank(c) && s != "" && TrimSpace(s) == s
    ensures TrimSpace(b + s + c) == s
  {
    TrimmedFromTheLeft(s);
    Regroup(b, s, c);
    BlankInFront(b, s + c);
    TrimmedStart(s);
    assert (s + c)[0] == s[0];
    BlankBehind(s, c);
  }

  lemma BlankTrims(b: string)
    requires AllBlank(b)
    ensures TrimSpace(b) == ""
  {
    assert b + "" == b;
    BlankInFront(b, "");
  }

  // ----- a statement inside the script -------------------------------------------------------------

  // What follows a statement in a script neither merges with its end nor completes a directive.
  predicate Ends(src: string, p: nat, s: string, delim: string) {
    && Inside(src, p, s) && p + |s| < |src| && LineStart(src, p)
    && (src[p + |s|] == '\n' || (delim == ";" && src[p + |s|] == ';') || (delim == "//" && src[p + |s|] == '/'))
  }

  lemma AtText(src: string, i: nat, t: string)
    ensures At(src, i, t) <==> i + |t| <= |src| && forall k | 0 <= k < |t| :: src[i + k] == t[k]
  {
    if i + |t| <= |src| && forall k | 0 <= k < |t| :: src[i + k] == t[k] { assert src[i..i + |t|] == t; }
    if At(src, i, t) {
      forall k | 0 <= k < |t| ensures src[i + k] == t[k] { assert src[i..i + |t|][k] == src[i + k]; }
    }
  }

  lemma NotCut(src: string, p: nat, s: string, i: nat, delim: string)
    requires Ends(src, p, s, delim) && i < |s| && !At(s, i, delim) && (delim == ";" || delim == "//")
    requires delim == "//" ==> s[|s| - 1] != '/'
    ensures !At(src, p + i, delim)
  {
    AtText(src, p + i, delim);
    AtText(s, i, delim);
    assert src[p + i + 0] == s[i + 0] && (i + 1 < |s| ==> src[p + i + 1] == src[p + (i + 1)] == s[i + 1]);
    assert delim == "//" ==> delim[0] == delim[1] == '/';
  }

  lemma SameText(src: string, p: nat, s: string, i: nat)
    requires Inside(src, p, s) && At(src, p + i, DIRECTIVE) && i + |DIRECTIVE| <= |s|
    ensures At(s, i, DIRECTIVE)
  {
    AtText(src, p + i, DIRECTIVE);
    forall k | 0 <= k < |DIRECTIVE| ensures s[i + k] == DIRECTIVE[k] {
      assert src[p + (i + k)] == s[i + k] && src[p + i + k] == DIRECTIVE[k];
    }
    AtText(s, i, DIRECTIVE);
  }

  lemma NoDirectiveInside(src: string, p: nat, s: string, i: nat, delim: string)
    requires Ends(src, p, s, delim) && i < |s| && !DirectiveAt(s, i)
    ensures !DirectiveAt(src, p + i)
  {
    assert i > 0 && LineStart(src, p + i) ==> src[p + (i - 1)] == s[i - 1];
    if DirectiveAt(src, p + i) { DirectiveFits(src, p, s, i, delim); }
  }

  lemma DirectiveFits(src: string, p: nat, s: string, i: nat, delim: string)
    requires Ends(src, p, s, delim) && i < |s| && At(src, p + i, DIRECTIVE)
    ensures At(s, i, DIRECTIVE)
  {
    AtText(src, p + i, DIRECTIVE);
    if i + |DIRECTIVE| <= |s| { SameText(src, p, s, i); }
  }

  lemma StepFor(src: string, i: nat, cur: string, delim: string, done: seq<string>)
    requires i < |src| && |delim| > 0 && !CommentAt(src, i) && NextPos(src, i).Some?
    requires !DirectiveAt(src, i) && !At(src, i, delim)
    ensures var j := NextPos(src, i).value;
      Lex(src, i, cur, delim, done, true) == Lex(src, j, cur + src[i..j], delim, done, true)
  {
    if !IsQuote(src[i]) { assert src[i..i + 1] == [src[i]]; }
  }

  lemma LineFeedFor(src: string, i: nat, cur: string, delim: string, done: seq<string>)
    requires i < |src| && src[i] == '\n' && (delim == ";" || delim == "//")
    ensures Lex(src, i, cur, delim, done, true) == Lex(src, i + 1, cur + "\n", delim, done, true)
  {
    DirectiveText(src, i);
    AtText(src, i, delim);
    assert src[i + 0] != delim[0];
    StepFor(src, i, cur, delim, done);
    assert src[i..i + 1] == "\n";
  }

  lemma DelimiterFor(src: string, i: nat, cur: string, delim: string, done: seq<string>)
    requires At(src, i, delim) && (delim == ";" || delim == "//")
    ensures i < |src|
    ensures Lex(src, i, cur, delim, done, true) == Lex(src, i + |delim|, "", delim, AddStatement(done, cur), true)
  {
    AtText(src, i, delim);
    assert src[i + 0] == delim[0];
    DirectiveText(src, i);
  }

  lemma DirectiveFor(src: string, i: nat, cur: string, delim: string, done: seq<string>)
    requires DirectiveAt(src, i) && |delim| > 0
    ensures i + |DIRECTIVE| <= |src|
    ensures var end := LineEnd(src, i + |DIRECTIVE|);
      var name := src[i + |DIRECTIVE|..end];
      Lex(src, i, cur, delim, done, true) ==
        if TrimSpace(cur) != "" then Err(DelimiterInsideStatement)
        else if !Supported(name) then Err(UnsupportedDelimiter)
        else Lex(src, end, cur, TrimSpace(name), done, true)
  {
  }

  lemma NoteFor(src: string, i: nat, e: nat, cur: string, delim: string, done: seq<string>)
    requires i < |src| && LineCommentAt(src, i) > 0 && (delim == ";" || delim == "//")
    requires e < |src| && LineEnd(src, i + LineCommentAt(src, i)) == e
    ensures Lex(src, i, cur, delim, done, true) == Lex(src, e + 1, cur + " \n", delim, done, true)
  {
    DirectiveText(src, i);
    AtText(src, i, delim);
    assert src[i + 0] != delim[0];
  }

  lemma BlockNoteFor(src: string, i: nat, e: nat, cur: string, delim: string, done: seq<string>)
    requires i < |src| && BlockCommentAt(src, i) && BlockEnd(src, i + 2) == Some(e) && (delim == ";" || delim == "//")
    ensures Lex(src, i, cur, delim, done, true) == Lex(src, e, cur + "  ", delim, done, true)
  {
    DirectiveText(src, i);
    AtText(src, i, delim);
    assert delim == "//" ==> src[i + 1] != delim[1];
    assert delim == ";" ==> src[i + 0] != delim[0];
  }

  // From i to j there are only tokens that are copied.
  predicate CopiedFor(src: string, i: nat, j: nat, delim: string)
    decreases j - i
  {
    i == j ||
    (i < j <= |src| && !CommentAt(src, i) && !At(src, i, delim) && !DirectiveAt(src, i)
     && NextPos(src, i).Some? && NextPos(src, i).value <= j && CopiedFor(src, NextPos(src, i).value, j, delim))
  }

  lemma {:induction false} CopyFor(src: string, i: nat, j: nat, cur: string, delim: string, done: seq<string>)
    requires i <= j <= |src| && |delim| > 0 && CopiedFor(src, i, j, delim)
    ensures Lex(src, i, cur, delim, done, true) == Lex(src, j, cur + src[i..j], delim, done, true)
    decreases j - i
  {
    if i == j {
      assert cur + src[i..j] == cur;
    } else {
      var m := NextPos(src, i).value;
      StepFor(src, i, cur, delim, done);
      CopyFor(src, m, j, cur + src[i..m], delim, done);
      Regroup(cur, src[i..m], src[m..j]);
      assert src[i..m] + src[m..j] == src[i..j];
    }
  }

  lemma {:induction false} StatementIsCopied(src: string, p: nat, s: string, i: nat, delim: string)
    requires Ends(src, p, s, delim) && i <= |s| && (delim == ";" || delim == "//")
    requires delim == "//" && s != "" ==> s[|s| - 1] != '/'
    requires CleanFor(s, i, delim) && DirectiveFree(s, i)
    ensures CopiedFor(src, p + i, p + |s|, delim)
    decreases |s| - i
  {
    if i < |s| {
      TokenInside(src, p, s, i);
      NotCut(src, p, s, i, delim);
      NoDirectiveInside(src, p, s, i, delim);
      StatementIsCopied(src, p, s, NextPos(s, i).value, delim);
    }
  }

  lemma TextFor(src: string, p: nat, s: string, cur: string, delim: string, done: seq<string>)
    requires Ends(src, p, s, delim) && (delim == ";" || delim == "//") && StatementFor(s, delim)
    ensures Lex(src, p, cur, delim, done, true) == Lex(src, p + |s|, cur + s, delim, done, true)
  {
    StatementIsCopied(src, p, s, 0, delim);
    CopyFor(src, p, p + |s|, cur, delim, done);
    assert src[p..p + |s|] == s;
  }

  // ----- one part after the other ------------------------------------------------------------------

  // The text that is still to be read.
  predicate Rests(src: string, p: nat, text: string) { p <= |src| && src[p..] == text }

  lemma ReadOn(src: string, p: nat, a: string, b: string)
    requires Rests(src, p, a + b)
    ensures Inside(src, p, a) && Rests(src, p + |a|, b)
  {
    forall k | 0 <= k < |a| ensures src[p + k] == a[k] { assert src[p..][k] == (a + b)[k]; }
    assert src[p + |a|..] == src[p..][|a|..] == b;
  }

  // Where a part begins: at the start of a line, with nothing but blank space read since the last statement.
  predicate Begins(src: string, p: nat, text: string, cur: string, delim: string) {
    Rests(src, p, text) && LineStart(src, p) && AllBlank(cur) && (delim == ";" || delim == "//")
  }

  lemma StatementText(src: string, p: nat, s: string, rest: string, delim: string)
    requires Rests(src, p, s + (delim + "\n") + rest) && LineStart(src, p) && (delim == ";" || delim == "//")
    ensures Ends(src, p, s, delim) && At(src, p + |s|, delim)
    ensures var e := p + |s| + |delim|; e < |src| && src[e] == '\n' && Rests(src, e + 1, rest)
  {
    var e := p + |s|;
    Regroup(s, delim + "\n", rest);
    ReadOn(src, p, s, (delim + "\n") + rest);
    Regroup(delim, "\n", rest);
    ReadOn(src, e, delim, "\n" + rest);
    ReadOn(src, e + |delim|, "\n", rest);
    AtText(src, e, delim);
    assert src[e + 0] == delim[0] && src[e + |delim| + 0] == "\n"[0];
  }

  lemma StatementAdded(done: seq<string>, cur: string, s: string)
    requires AllBlank(cur) && s != "" && TrimSpace(s) == s
    ensures AddStatement(done, cur + s) == done + [s]
  {
    TrimmedInBlank(cur, s, "");
    assert cur + s + "" == cur + s;
  }

  lemma StatementClosed(src: string, p: nat, s: string, cur: string, delim: string, done: seq<string>)
    requires Ends(src, p, s, delim) && At(src, p + |s|, delim) && StatementFor(s, delim)
    requires AllBlank(cur) && (delim == ";" || delim == "//")
    ensures p + |s| + |delim| <= |src|
    ensures Lex(src, p, cur, delim, done, true) == Lex(src, p + |s| + |delim|, "", delim, done + [s], true)
  {
    hide Lex;
    TextFor(src, p, s, cur, delim, done);
    DelimiterFor(src, p + |s|, cur + s, delim, done);
    StatementAdded(done, cur, s);
  }

  lemma StatementRead(src: string, p: nat, s: string, rest: string, cur: string, delim: string, done: seq<string>)
    requires Begins(src, p, s + (delim + "\n") + rest, cur, delim) && StatementFor(s, delim)
    ensures var q := p + |s| + |delim| + 1;
      && Begins(src, q, rest, "\n", delim)
      && Lex(src, p, cur, delim, done, true) == Lex(src, q, "\n", delim, done + [s], true)
  {
    hide Lex;
    StatementText(src, p, s, rest, delim);
    StatementClosed(src, p, s, cur, delim, done);
    LineFeedFor(src, p + |s| + |delim|, "", delim, done + [s]);
    assert "" + "\n" == "\n";
  }

  lemma {:induction false} LineEndAt(src: string, i: nat, text: string)
    requires Inside(src, i, text + "\n") && OneLine(text)
    ensures LineEnd(src, i) == i + |text|
    decreases |text|
  {
    assert src[i + |text|] == (text + "\n")[|text|] == '\n';
    if text != "" {
      assert src[i + 0] == (text + "\n")[0] == text[0];
      forall k | 0 <= k < |text[1..] + "\n"| ensures src[i + 1 + k] == (text[1..] + "\n")[k] {
        assert src[i + (k + 1)] == (text + "\n")[k + 1];
      }
      LineEndAt(src, i + 1, text[1..]);
    }
  }

  lemma DirectiveLine(src: string, p: nat, name: string, rest: string)
    requires Rests(src, p, "DELIMITER " + (name + "\n") + rest) && LineStart(src, p) && OneLine(name)
    ensures DirectiveAt(src, p) && p + |DIRECTIVE| <= |src|
    ensures var e := LineEnd(src, p + |DIRECTIVE|);
      && e == p + |DIRECTIVE| + |name| && src[p + |DIRECTIVE|..e] == name
      && e < |src| && src[e] == '\n' && Rests(src, e + 1, rest)
  {
    hide LineEnd, At;
    var e := p + |DIRECTIVE|;
    Regroup("DELIMITER ", name + "\n", rest);
    ReadOn(src, p, "DELIMITER ", (name + "\n") + rest);
    LineText(src, e, name, rest);
    AtText(src, p, DIRECTIVE);
    LineEndAt(src, e, name);
  }

  // One line of the source and what follows it.
  lemma LineText(src: string, e: nat, name: string, rest: string)
    requires Rests(src, e, (name + "\n") + rest)
    ensures e + |name| < |src| && src[e..e + |name|] == name && src[e + |name|] == '\n'
    ensures forall k | 0 <= k < |name + "\n"| :: src[e + k] == (name + "\n")[k]
    ensures Rests(src, e + |name| + 1, rest)
  {
    ReadOn(src, e, name + "\n", rest);
    assert forall k | 0 <= k < |name| :: src[e + k] == (name + "\n")[k] == name[k];
    assert src[e + |name|] == (name + "\n")[|name|] == '\n';
  }

  lemma DirectiveRead(src: string, p: nat, name: string, rest: string, cur: string, delim: string, done: seq<string>)
    requires Rests(src, p, "DELIMITER " + (name + "\n") + rest) && LineStart(src, p) && OneLine(name) && |delim| > 0
    ensures TrimSpace(cur) != "" ==> Lex(src, p, cur, delim, done, true) == Err(DelimiterInsideStatement)
    ensures TrimSpace(cur) == "" && !Supported(name) ==>
      Lex(src, p, cur, delim, done, true) == Err(UnsupportedDelimiter)
    ensures AllBlank(cur) && Supported(name) ==>
      var q := p + 10 + |name| + 1;
      && Begins(src, q, rest, cur + "\n", TrimSpace(name))
      && Lex(src, p, cur, delim, done, true) == Lex(src, q, cur + "\n", TrimSpace(name), done, true)
  {
    hide Lex;
    DirectiveLine(src, p, name, rest);
    DirectiveFor(src, p, cur, delim, done);
    if AllBlank(cur) && Supported(name) {
      BlankTrims(cur);
      LineFeedFor(src, p + 10 + |name|, cur, TrimSpace(name), done);
    }
  }

  lemma NoteLine(src: string, p: nat, mark: string, text: string, rest: string)
    requires Rests(src, p, mark + (text + "\n") + rest) && OneLine(text) && (mark == "--" || mark == "#")
    ensures p < |src| && LineCommentAt(src, p) == |mark|
    ensures var e := LineEnd(src, p + |mark|);
      e == p + |mark| + |text| && e < |src| && src[e] == '\n' && Rests(src, e + 1, rest)
  {
    var e := p + |mark|;
    Regroup(mark, text + "\n", rest);
    ReadOn(src, p, mark, (text + "\n") + rest);
    ReadOn(src, e, text + "\n", rest);
    LineEndAt(src, e, text);
    assert src[p + 0] == mark[0] && (mark == "--" ==> src[p + 1] == mark[1]);
    assert src[e + |text|] == (text + "\n")[|text|] == '\n';
  }

  lemma NoteRead(
      src: string, p: nat, mark: string, text: string, rest: string, cur: string, delim: string, done: seq<string>)
    requires Begins(src, p, mark + (text + "\n") + rest, cur, delim) && OneLine(text) && (mark == "--" || mark == "#")
    ensures var q := p + |mark| + |text| + 1;
      && Begins(src, q, rest, cur + " \n", delim)
      && Lex(src, p, cur, delim, done, true) == Lex(src, q, cur + " \n", delim, done, true)
  {
    hide Lex;
    NoteLine(src, p, mark, text, rest);
    NoteFor(src, p, p + |mark| + |text|, cur, delim, done);
  }

  lemma {:induction false} BlockEndAt(src: string, i: nat, text: string)
    requires Inside(src, i, text + "*/") && NoBlockEnd(text)
    ensures BlockEnd(src, i) == Some(i + |text| + 2)
    decreases |text|
  {
    var whole := text + "*/";
    assert src[i + 0] == whole[0] && src[i + 1] == whole[1];
    if text != "" {
      assert !(whole[0] == '*' && whole[1] == '/');
      forall k | 0 <= k < |text[1..] + "*/"| ensures src[i + 1 + k] == (text[1..] + "*/")[k] {
        assert src[i + (k + 1)] == whole[k + 1];
      }
      assert NoBlockEnd(text[1..]) by {
        forall k | 0 <= k < |text[1..]| - 1 ensures !(text[1..][k] == '*' && text[1..][k + 1] == '/') {
          assert !(text[k + 1] == '*' && text[k + 2] == '/');
        }
      }
      BlockEndAt(src, i + 1, text[1..]);
    }
  }

  lemma BlockNoteText(src: string, p: nat, text: string, rest: string)
    requires Rests(src, p, "/*" + (text + "*/\n") + rest) && NoBlockEnd(text)
    ensures p < |src| && BlockCommentAt(src, p) && BlockEnd(src, p + 2) == Some(p + 2 + |text| + 2)
    ensures var e := p + 2 + |text| + 2; e < |src| && src[e] == '\n' && Rests(src, e + 1, rest)
  {
    var e := p + 2;
    Regroup("/*", text + "*/\n", rest);
    ReadOn(src, p, "/*", (text + "*/\n") + rest);
    assert text + "*/\n" == (text + "*/") + "\n";
    Regroup(text + "*/", "\n", rest);
    ReadOn(src, e, text + "*/", "\n" + rest);
    ReadOn(src, e + |text| + 2, "\n", rest);
    BlockEndAt(src, e, text);
    assert src[p + 0] == "/*"[0] && src[p + 1] == "/*"[1] && src[e + |text| + 2 + 0] == "\n"[0];
  }

  lemma BlockNoteRead(src: string, p: nat, text: string, rest: string, cur: string, delim: string, done: seq<string>)
    requires Begins(src, p, "/*" + (text + "*/\n") + rest, cur, delim) && NoBlockEnd(text)
    ensures var q := p + 2 + |text| + 3;
      && Begins(src, q, rest, cur + "  " + "\n", delim)
      && Lex(src, p, cur, delim, done, true) == Lex(src, q, cur + "  " + "\n", delim, done, true)
  {
    hide Lex;
    BlockNoteText(src, p, text, rest);
    BlockNoteFor(src, p, p + 2 + |text| + 2, cur, delim, done);
    LineFeedFor(src, p + 2 + |text| + 2, cur + "  ", delim, done);
  }

  lemma PendingRead(src: string, p: nat, s: string, rest: string, cur: string, delim: string, done: seq<string>)
    requires Begins(src, p, (s + "\n") + rest, cur, delim) && StatementFor(s, delim)
    ensures var q := p + |s| + 1;
      && Rests(src, q, rest) && LineStart(src, q) && TrimSpace(cur + s + "\n") == s
      && Lex(src, p, cur, delim, done, true) == Lex(src, q, cur + s + "\n", delim, done, true)
  {
    hide Lex;
    var e := p + |s|;
    Regroup(s, "\n", rest);
    ReadOn(src, p, s, "\n" + rest);
    ReadOn(src, e, "\n", rest);
    assert src[e + 0] == "\n"[0];
    TextFor(src, p, s, cur, delim, done);
    LineFeedFor(src, e, cur + s, delim, done);
    TrimmedInBlank(cur, s, "\n");
  }

  // ----- whole scripts -----------------------------------------------------------------------------

  lemma FinishBlank(cur: string, delim: string, done: seq<string>)
    requires AllBlank(cur)
    ensures Finish(cur, delim, done) == if delim != ";" then Err(Unterminated)
                                        else if done == [] then Err(Empty) else Ok(done)
  {
    BlankTrims(cur);
  }

  lemma LexEnd(src: string, cur: string, delim: string, done: seq<string>)
    requires |delim| > 0
    ensures Lex(src, |src|, cur, delim, done, true) == Finish(cur, delim, done)
  {
  }

  // A text no delimiter follows: the last statement at the end, an error before a directive.
  lemma PendingMeans(src: string, p: nat, parts: seq<Part>, cur: string, delim: string, done: seq<string>)
    requires parts != [] && parts[0].Pending? && WellFormed(parts, delim)
    requires Begins(src, p, Render(parts, delim), cur, delim)
    ensures Lex(src, p, cur, delim, done, true) == Meaning(parts, delim, done)
  {
    hide Lex;
    var s, rest := parts[0].text, Render(parts[1..], delim);
    PendingRead(src, p, s, rest, cur, delim, done);
    var q := p + |s| + 1;
    if |parts| == 1 {
      assert src[q..] == "" && q == |src|;
      LexEnd(src, cur + s + "\n", delim, done);
    } else {
      var name, more := parts[1].name, parts[1..];
      assert PartOk(more[0], delim);
      assert rest == RenderPart(more[0], delim) + Render(more[1..], InForce(more[0], delim));
      DirectiveRead(src, q, name, Render(more[1..], InForce(more[0], delim)), cur + s + "\n", delim, done);
    }
  }

  lemma {:induction false} ScriptMeans(
      src: string, p: nat, parts: seq<Part>, cur: string, delim: string, done: seq<string>)
    requires WellFormed(parts, delim) && Begins(src, p, Render(parts, delim), cur, delim)
    ensures Lex(src, p, cur, delim, done, true) == Meaning(parts, delim, done)
    decreases |parts|, 1
  {
    if parts == [] {
      assert src[p..] == "" && p == |src|;
      FinishBlank(cur, delim, done);
    } else if parts[0].Stmt? {
      StmtMeans(src, p, parts, cur, delim, done);
    } else if parts[0].Note? {
      NoteMeans(src, p, parts, cur, delim, done);
    } else if parts[0].BlockNote? {
      BlockNoteMeans(src, p, parts, cur, delim, done);
    } else if parts[0].Pending? {
      PendingMeans(src, p, parts, cur, delim, done);
    } else if Supported(parts[0].name) {
      UseMeans(src, p, parts, cur, delim, done);
    } else {
      RefusedMeans(src, p, parts, cur, delim, done);
    }
  }

  lemma StmtStep(src: string, p: nat, parts: seq<Part>, cur: string, delim: string, done: seq<string>)
    requires parts != [] && parts[0].Stmt? && WellFormed(parts, delim)
    requires Begins(src, p, Render(parts, delim), cur, delim)
    ensures var q := p + |parts[0].text| + |delim| + 1;
      && Begins(src, q, Render(parts[1..], delim), "\n", delim)
      && Lex(src, p, cur, delim, done, true) == Lex(src, q, "\n", delim, done + [parts[0].text], true)
  {
    hide Lex;
    StatementRead(src, p, parts[0].text, Render(parts[1..], delim), cur, delim, done);
  }

  lemma {:induction false} StmtMeans(
      src: string, p: nat, parts: seq<Part>, cur: string, delim: string, done: seq<string>)
    requires parts != [] && parts[0].Stmt? && WellFormed(parts, delim)
    requires Begins(src, p, Render(parts, delim), cur, delim)
    ensures Lex(src, p, cur, delim, done, true) == Meaning(parts, delim, done)
    decreases |parts|, 0
  {
    hide Lex;
    StmtStep(src, p, parts, cur, delim, done);
    ScriptMeans(src, p + |parts[0].text| + |delim| + 1, parts[1..], "\n", delim, done + [parts[0].text]);
  }

  lemma {:induction false} NoteMeans(
      src: string, p: nat, parts: seq<Part>, cur: string, delim: string, done: seq<string>)
    requires parts != [] && parts[0].Note? && WellFormed(parts, delim)
    requires Begins(src, p, Render(parts, delim), cur, delim)
    ensures Lex(src, p, cur, delim, done, true) == Meaning(parts, delim, done)
    decreases |parts|, 0
  {
    hide Lex;
    var mark, text := parts[0].mark, parts[0].text;
    NoteRead(src, p, mark, text, Render(parts[1..], delim), cur, delim, done);
    ScriptMeans(src, p + |mark| + |text| + 1, parts[1..], cur + " \n", delim, done);
  }

  lemma {:induction false} BlockNoteMeans(
      src: string, p: nat, parts: seq<Part>, cur: string, delim: string, done: seq<string>)
    requires parts != [] && parts[0].BlockNote? && WellFormed(parts, delim)
    requires Begins(src, p, Render(parts, delim), cur, delim)
    ensures Lex(src, p, cur, delim, done, true) == Meaning(parts, delim, done)
    decreases |parts|, 0
  {
    hide Lex;
    var text := parts[0].text;
    BlockNoteRead(src, p, text, Render(parts[1..], delim), cur, delim, done);
    ScriptMeans(src, p + 2 + |text| + 3, parts[1..], cur + "  " + "\n", delim, done);
  }

  lemma UseStep(src: string, p: nat, parts: seq<Part>, cur: string, delim: string, done: seq<string>)
    requires parts != [] && parts[0].Use? && Supported(parts[0].name) && WellFormed(parts, delim)
    requires Begins(src, p, Render(parts, delim), cur, delim)
    ensures var q, next := p + 10 + |parts[0].name| + 1, TrimSpace(parts[0].name);
      && WellFormed(parts[1..], next) && Begins(src, q, Render(parts[1..], next), cur + "\n", next)
      && Lex(src, p, cur, delim, done, true) == Lex(src, q, cur + "\n", next, done, true)
  {
    hide Lex;
    DirectiveRead(src, p, parts[0].name, Render(parts[1..], TrimSpace(parts[0].name)), cur, delim, done);
  }

  lemma UseMeaning(parts: seq<Part>, delim: string, done: seq<string>)
    requires parts != [] && parts[0].Use? && Supported(parts[0].name)
    ensures Meaning(parts, delim, done) == Meaning(parts[1..], TrimSpace(parts[0].name), done)
  {
  }

  lemma {:induction false} UseMeans(
      src: string, p: nat, parts: seq<Part>, cur: string, delim: string, done: seq<string>)
    requires parts != [] && parts[0].Use? && Supported(parts[0].name) && WellFormed(parts, delim)
    requires Begins(src, p, Render(parts, delim), cur, delim)
    ensures Lex(src, p, cur, delim, done, true) == Meaning(parts, delim, done)
    decreases |parts|, 0
  {
    hide *;
    UseMeaning(parts, delim, done);
    UseStep(src, p, parts, cur, delim, done);
    ScriptMeans(src, p + 10 + |parts[0].name| + 1, parts[1..], cur + "\n", TrimSpace(parts[0].name), done);
  }

  lemma RefusedMeans(src: string, p: nat, parts: seq<Part>, cur: string, delim: string, done: seq<string>)
    requires parts != [] && parts[0].Use? && !Supported(parts[0].name) && WellFormed(parts, delim)
    requires Begins(src, p, Render(parts, delim), cur, delim)
    ensures Lex(src, p, cur, delim, done, true) == Meaning(parts, delim, done)
  {
    hide Lex;
    BlankTrims(cur);
    DirectiveRead(src, p, parts[0].name, Render(parts[1..], InForce(parts[0], delim)), cur, delim, done);
  }

  /** Every script put together from these parts is split into its statements, or refused, as it means. */
  lemma ScriptsAreSplit(parts: seq<Part>)
    requires WellFormed(parts, ";")
    ensures Split(Render(parts, ";")) == Meaning(parts, ";", [])
  {
    var src := Render(parts, ";");
    assert src[0..] == src;
    ScriptMeans(src, 0, parts, "", ";", []);
  }

  // ----- procedures, then plain statements ---------------------------------------------------------

  function Stmts(list: seq<string>): seq<Part> { seq(|list|, k requires 0 <= k < |list| => Stmt(list[k])) }

  // Each statement with what ends it.
  function Each(list: seq<string>, end: string): string
    decreases |list|
  {
    if list == [] then "" else list[0] + end + Each(list[1..], end)
  }

  predicate AllFor(list: seq<string>, delim: string) { forall k | 0 <= k < |list| :: StatementFor(list[k], delim) }

  lemma StmtsHead(list: seq<string>, rest: seq<Part>)
    requires list != []
    ensures var parts := Stmts(list) + rest;
      parts != [] && parts[0] == Stmt(list[0]) && parts[1..] == Stmts(list[1..]) + rest
  {
  }

  lemma {:induction false} StmtsMean(list: seq<string>, rest: seq<Part>, delim: string, done: seq<string>)
    requires AllFor(list, delim) && WellFormed(rest, delim)
    ensures WellFormed(Stmts(list) + rest, delim)
    ensures Meaning(Stmts(list) + rest, delim, done) == Meaning(rest, delim, done + list)
    decreases |list|
  {
    hide StatementFor;
    if list == [] {
      assert Stmts(list) + rest == rest && done + list == done;
    } else {
      StmtsHead(list, rest);
      StmtsMean(list[1..], rest, delim, done + [list[0]]);
      assert done + [list[0]] + list[1..] == done + list;
    }
  }

  lemma {:induction false} StmtsRender(list: seq<string>, rest: seq<Part>, delim: string)
    ensures Render(Stmts(list) + rest, delim) == Each(list, delim + "\n") + Render(rest, delim)
    decreases |list|
  {
    if list == [] {
      assert Stmts(list) + rest == rest;
    } else {
      StmtsHead(list, rest);
      StmtsRender(list[1..], rest, delim);
      Regroup(list[0] + (delim + "\n"), Each(list[1..], delim + "\n"), Render(rest, delim));
    }
  }

  // A directive that is known, and what follows it.
  lemma UseBefore(name: string, rest: seq<Part>, delim: string, done: seq<string>)
    requires OneLine(name) && Supported(name) && WellFormed(rest, TrimSpace(name))
    ensures var parts := [Use(name)] + rest;
      && WellFormed(parts, delim)
      && Render(parts, delim) == "DELIMITER " + (name + "\n") + Render(rest, TrimSpace(name))
      && Meaning(parts, delim, done) == Meaning(rest, TrimSpace(name), done)
  {
    var parts := [Use(name)] + rest;
    assert parts[0] == Use(name) && parts[1..] == rest;
  }

  // The parts of a script of procedures and plain statements, and their text.
  function ProceduresThen(procedures: seq<string>, plain: seq<string>): seq<Part> {
    [Use("//")] + (Stmts(procedures) + ([Use(";")] + (Stmts(plain) + [])))
  }

  lemma PlainStatements(plain: seq<string>, delim: string, done: seq<string>)
    requires AllFor(plain, ";")
    ensures var parts := [Use(";")] + (Stmts(plain) + []);
      && WellFormed(parts, delim) && Render(parts, delim) == "DELIMITER ;\n" + Each(plain, ";\n")
      && Meaning(parts, delim, done) == Meaning([], ";", done + plain)
  {
    NamesTrim();
    StmtsMean(plain, [], ";", done);
    StmtsRender(plain, [], ";");
    UseBefore(";", Stmts(plain) + [], delim, done);
    assert "DELIMITER " + (";" + "\n") == "DELIMITER ;\n" && ";" + "\n" == ";\n";
    assert Each(plain, ";\n") + "" == Each(plain, ";\n");
  }

  lemma ProceduresMean(procedures: seq<string>, plain: seq<string>)
    requires AllFor(procedures, "//") && AllFor(plain, ";")
    ensures var parts := ProceduresThen(procedures, plain);
      && WellFormed(parts, ";") && Meaning(parts, ";", []) == Meaning([], ";", procedures + plain)
      && Render(parts, ";")
         == "DELIMITER //\n" + (Each(procedures, "//\n") + ("DELIMITER ;\n" + Each(plain, ";\n")))
  {
    hide StatementFor, Meaning, Render, WellFormed, Each;
    var ends := [Use(";")] + (Stmts(plain) + []);
    NamesTrim();
    PlainStatements(plain, "//", procedures);
    StmtsMean(procedures, ends, "//", []);
    StmtsRender(procedures, ends, "//");
    UseBefore("//", Stmts(procedures) + ends, ";", []);
    assert [] + procedures == procedures;
    assert "DELIMITER " + ("//" + "\n") == "DELIMITER //\n" && "//" + "\n" == "//\n";
  }

  /**
   Procedures under the delimiter //, each with any number of semicolons in it, followed by statements
   under the delimiter ; come back as the two lists, one after the other.
   */
  lemma ProceduresAreKeptWhole(procedures: seq<string>, plain: seq<string>)
    requires AllFor(procedures, "//") && AllFor(plain, ";") && procedures + plain != []
    ensures Split("DELIMITER //\n" + Each(procedures, "//\n") + ("DELIMITER ;\n" + Each(plain, ";\n")))
         == Ok(procedures + plain)
  {
    ProceduresMean(procedures, plain);
    ScriptsAreSplit(ProceduresThen(procedures, plain));
    Regroup("DELIMITER //\n", Each(procedures, "//\n"), "DELIMITER ;\n" + Each(plain, ";\n"));
  }

  lemma NamesTrim()
    ensures TrimSpace("//") == "//" && TrimSpace(";") == ";"
    ensures Supported("//") && Supported(";") && OneLine("//") && OneLine(";")
  {
  }

  // ----- when directives are refused ---------------------------------------------------------------

  // Every directive comes between statements and names a delimiter that is known.
  predicate Accepted(parts: seq<Part>) {
    forall k | 0 <= k < |parts| ::
      && (parts[k].Use? ==> Supported(parts[k].name))
      && (parts[k].Pending? ==> k == |parts| - 1)
  }

  predicate Refused(r: Statements) { r == Err(DelimiterInsideStatement) || r == Err(UnsupportedDelimiter) }

  lemma {:induction false} RefusedUnlessAccepted(parts: seq<Part>, delim: string, done: seq<string>)
    requires WellFormed(parts, delim)
    ensures Refused(Meaning(parts, delim, done)) <==> !Accepted(parts)
    decreases |parts|
  {
    if parts != [] {
      var part, rest := parts[0], parts[1..];
      AcceptedTail(parts);
      if part.Stmt? { RefusedUnlessAccepted(rest, delim, done + [part.text]); }
      else if !part.Pending? { RefusedUnlessAccepted(rest, InForce(part, delim), done); }
    }
  }

  lemma AcceptedTail(parts: seq<Part>)
    requires parts != []
    ensures Accepted(parts) <==>
      && (parts[0].Use? ==> Supported(parts[0].name)) && (parts[0].Pending? ==> |parts| == 1) && Accepted(parts[1..])
  {
    if Accepted(parts[1..]) && (parts[0].Use? ==> Supported(parts[0].name)) && (parts[0].Pending? ==> |parts| == 1) {
      forall k | 0 <= k < |parts|
        ensures (parts[k].Use? ==> Supported(parts[k].name)) && (parts[k].Pending? ==> k == |parts| - 1)
      {
        if k > 0 { assert parts[1..][k - 1] == parts[k]; }
      }
    }
    if Accepted(parts) {
      forall k | 0 <= k < |parts[1..]|
        ensures (parts[1..][k].Use? ==> Supported(parts[1..][k].name))
             && (parts[1..][k].Pending? ==> k == |parts[1..]| - 1)
      {
        assert parts[1..][k] == parts[k + 1];
      }
    }
  }

  /** A directive is refused if and only if text is pending before one, or one names another delimiter. */
  lemma DirectivesAreRefusedIff(parts: seq<Part>)
    requires WellFormed(parts, ";")
    ensures Refused(Split(Render(parts, ";"))) <==> !Accepted(parts)
  {
    ScriptsAreSplit(parts);
    RefusedUnlessAccepted(parts, ";", []);
  }

  // The directive, after what is pending.
  function NextParts(pending: Option<string>, name: string): seq<Part> {
    (if pending.Some? then [Pending(pending.value)] else []) + [Use(name)]
  }

  lemma NextPartsMean(pending: Option<string>, name: string, done: seq<string>)
    requires OneLine(name) && (pending.Some? ==> StatementFor(pending.value, ";"))
    ensures WellFormed(NextParts(pending, name), ";")
    ensures Meaning(NextParts(pending, name), ";", done) ==
      if pending.Some? then Err(DelimiterInsideStatement)
      else if TrimSpace(name) == "//" then Err(Unterminated)
      else if TrimSpace(name) != ";" then Err(UnsupportedDelimiter)
      else if done == [] then Err(Empty) else Ok(done)
  {
    hide StatementFor, TrimSpace;
    var line := [Use(name)];
    assert line[1..] == [] && WellFormed(line, ";");
    var parts := NextParts(pending, name);
    if pending.Some? { assert parts[1..] == line && parts[0] == Pending(pending.value); } else { assert parts == line; }
  }

  lemma NextPartsRender(pending: Option<string>, name: string)
    ensures Render(NextParts(pending, name), ";")
         == (if pending.Some? then pending.value + "\n" else "") + ("DELIMITER " + (name + "\n"))
  {
    var line := [Use(name)];
    assert line[1..] == [] && Render(line, ";") == "DELIMITER " + (name + "\n") + "";
    var parts := NextParts(pending, name);
    if pending.Some? { assert parts[1..] == line && parts[0] == Pending(pending.value); } else { assert parts == line; }
  }

  /** After any statements, the next directive is answered by what is pending and by the name it gives. */
  lemma NextDirective(before: seq<string>, pending: Option<string>, name: string)
    requires AllFor(before, ";") && OneLine(name) && (pending.Some? ==> StatementFor(pending.value, ";"))
    ensures var text := if pending.Some? then pending.value + "\n" else "";
      var r := Split(Each(before, ";\n") + (text + ("DELIMITER " + (name + "\n"))));
      && (pending.Some? <==> r == Err(DelimiterInsideStatement))
      && (pending.None? && TrimSpace(name) != ";" && TrimSpace(name) != "//" <==> r == Err(UnsupportedDelimiter))
      && (pending.None? && TrimSpace(name) == "//" <==> r == Err(Unterminated))
      && (pending.None? && TrimSpace(name) == ";" ==> r == if before == [] then Err(Empty) else Ok(before))
  {
    hide StatementFor, TrimSpace, Meaning, Render, WellFormed, Split, Each;
    NextPartsMean(pending, name, before);
    NextPartsRender(pending, name);
    StmtsMean(before, NextParts(pending, name), ";", []);
    StmtsRender(before, NextParts(pending, name), ";");
    assert [] + before == before && ";" + "\n" == ";\n";
    ScriptsAreSplit(Stmts(before) + NextParts(pending, name));
  }
}
