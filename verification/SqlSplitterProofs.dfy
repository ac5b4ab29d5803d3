/**
 What the SQL splitters promise: they agree on scripts without directives, they lose nothing but
 comments, separators and blank space, and splitting is undone by joining.
 */
module SqlSplitterProofs {
  import opened Sequences
  import opened Strings
  import opened Wrappers
  import opened SqlSplitter

  // ----- tokens ------------------------------------------------------------------------------------

  predicate CommentAt(s: string, i: nat)
    requires i < |s|
  { LineCommentAt(s, i) > 0 || BlockCommentAt(s, i) }

  // The position after the token at i; None when a literal or a block comment is not closed.
  function NextPos(s: string, i: nat): (r: Option<nat>)
    requires i < |s|
    ensures r.Some? ==> i < r.value <= |s|
  {
    if LineCommentAt(s, i) > 0 then
      var end := LineEnd(s, i + LineCommentAt(s, i));
      Some(if end == |s| then end else end + 1)
    else if BlockCommentAt(s, i) then BlockEnd(s, i + 2)
    else if IsQuote(s[i]) then QuoteEnd(s, i + 1, s[i])
    else Some(i + 1)
  }

  // No DELIMITER line is met outside literals and comments.
  predicate DirectiveFree(s: string, i: nat)
    decreases |s| - i
  {
    i >= |s| || (!DirectiveAt(s, i) && (NextPos(s, i).Some? ==> DirectiveFree(s, NextPos(s, i).value)))
  }

  // No comment and no separator outside literals, and every literal closed.
  predicate Clean(s: string, i: nat)
    decreases |s| - i
  {
    i >= |s| || (!CommentAt(s, i) && s[i] != ';' && NextPos(s, i).Some? && Clean(s, NextPos(s, i).value))
  }

  // The literals and the other characters outside comments, without blank space and separators.
  function Pieces(s: string, i: nat): seq<string>
    decreases |s| - i
  {
    if i >= |s| || NextPos(s, i).None? then []
    else
      var j := NextPos(s, i).value;
      (if CommentAt(s, i) || s[i] == ';' || IsSpace(s[i]) then [] else [s[i..j]]) + Pieces(s, j)
  }

  function AllPieces(list: seq<string>): seq<string> {
    if list == [] then [] else AllPieces(list[..|list| - 1]) + Pieces(list[|list| - 1], 0)
  }

  // ----- single steps of the lexer -----------------------------------------------------------------

  lemma CopyStep(src: string, i: nat, cur: string, done: seq<string>, directives: bool)
    requires i < |src| && !CommentAt(src, i) && src[i] != ';' && NextPos(src, i).Some?
    requires directives ==> !DirectiveAt(src, i)
    ensures var j := NextPos(src, i).value;
      Lex(src, i, cur, ";", done, directives) == Lex(src, j, cur + src[i..j], ";", done, directives)
  {
    TokenOnly(src, i, cur, done, directives);
    if !IsQuote(src[i]) { assert src[i..i + 1] == [src[i]]; }
  }

  // The blank a comment leaves behind.
  function Blank(src: string, i: nat): string
    requires i < |src| && CommentAt(src, i)
  {
    if BlockCommentAt(src, i) then "  "
    else if LineEnd(src, i + LineCommentAt(src, i)) == |src| then " " else " \n"
  }

  lemma CommentStep(src: string, i: nat, cur: string, done: seq<string>, directives: bool)
    requires i < |src| && CommentAt(src, i) && NextPos(src, i).Some?
    requires directives ==> !DirectiveAt(src, i)
    ensures Lex(src, i, cur, ";", done, directives)
         == Lex(src, NextPos(src, i).value, cur + Blank(src, i), ";", done, directives)
  {
    TokenOnly(src, i, cur, done, directives);
  }

  lemma UnclosedStep(src: string, i: nat, cur: string, done: seq<string>, directives: bool)
    requires i < |src| && NextPos(src, i).None? && (directives ==> !DirectiveAt(src, i))
    ensures Lex(src, i, cur, ";", done, directives) == Err(Unterminated)
  {
    TokenOnly(src, i, cur, done, directives);
  }

  // ----- the two splitters agree -------------------------------------------------------------------

  lemma {:induction false} SameLexing(src: string, i: nat, cur: string, done: seq<string>)
    requires i <= |src| && DirectiveFree(src, i)
    ensures Lex(src, i, cur, ";", done, true) == Lex(src, i, cur, ";", done, false)
    decreases |src| - i
  {
    if i < |src| {
      var next := NextPos(src, i);
      if src[i] == ';' {
        SeparatorStep(src, i, cur, done, true);
        SeparatorStep(src, i, cur, done, false);
        SameLexing(src, i + 1, "", AddStatement(done, cur));
      } else if next.None? {
        UnclosedStep(src, i, cur, done, true);
        UnclosedStep(src, i, cur, done, false);
      } else if CommentAt(src, i) {
        CommentStep(src, i, cur, done, true);
        CommentStep(src, i, cur, done, false);
        SameLexing(src, next.value, cur + Blank(src, i), done);
      } else {
        CopyStep(src, i, cur, done, true);
        CopyStep(src, i, cur, done, false);
        SameLexing(src, next.value, cur + src[i..next.value], done);
      }
    }
  }

  /** Without a directive both splitters give the same statements or the same failure. */
  lemma SplittersAgree(src: string)
    requires DirectiveFree(src, 0)
    ensures Split(src) == SplitPlain(src)
  {
    SameLexing(src, 0, "", []);
  }

  // ----- reading a text inside a longer one --------------------------------------------------------

  predicate Inside(src: string, p: nat, s: string) {
    p + |s| <= |src| && forall k | 0 <= k < |s| :: src[p + k] == s[k]
  }

  // Characters that do not merge with the end of s into another token.
  predicate Separate(s: string, next: char) {
    s == "" ||
    var last := s[|s| - 1];
    !(last == '-' && next == '-') && !(last == '/' && next == '*') && !(IsQuote(last) && next == last)
  }

  predicate Followed(src: string, p: nat, s: string)
    requires Inside(src, p, s)
  { p + |s| == |src| || Separate(s, src[p + |s|]) }

  lemma {:induction false} QuoteInside(src: string, p: nat, s: string, i: nat, q: char)
    requires Inside(src, p, s) && Followed(src, p, s) && IsQuote(q)
    requires QuoteEnd(s, i, q).Some?
    ensures s[QuoteEnd(s, i, q).value - 1] == q
    ensures QuoteEnd(src, p + i, q) == Some(p + QuoteEnd(s, i, q).value)
    decreases |s| - i
  {
    if s[i] == '\\' && q != '`' && i + 1 < |s| {
      QuoteInside(src, p, s, i + 2, q);
    } else if s[i] == q {
      if i + 1 < |s| && s[i + 1] == q { QuoteInside(src, p, s, i + 2, q); }
    } else {
      QuoteInside(src, p, s, i + 1, q);
    }
  }

  // A closed token of s that is no comment is the same token of src.
  lemma TokenInside(src: string, p: nat, s: string, i: nat)
    requires Inside(src, p, s) && Followed(src, p, s)
    requires i < |s| && !CommentAt(s, i) && NextPos(s, i).Some?
    ensures src[p + i] == s[i] && !CommentAt(src, p + i)
    ensures NextPos(src, p + i) == Some(p + NextPos(s, i).value)
    ensures src[p + i..p + NextPos(s, i).value] == s[i..NextPos(s, i).value]
  {
    if IsQuote(s[i]) { QuoteInside(src, p, s, i + 1, s[i]); }
    var j := NextPos(s, i).value;
    assert src[p + i..p + j] == s[i..j];
  }

  // A directive of src inside s is one of s: no directive reaches over a following separator.
  lemma DirectiveInside(src: string, p: nat, s: string, i: nat)
    requires Inside(src, p, s) && i < |s| && LineStart(src, p)
    requires p + |s| == |src| || src[p + |s|] == ';'
    ensures DirectiveAt(src, p + i) ==> DirectiveAt(s, i)
  {
    if DirectiveAt(src, p + i) {
      DirectiveText(src, p + i);
      assert s[i..i + |DIRECTIVE|] == src[p + i..p + i + |DIRECTIVE|];
    }
  }

  // From i to j there are only tokens that are copied.
  predicate Copied(src: string, i: nat, j: nat, directives: bool)
    decreases j - i
  {
    i == j ||
    (i < j <= |src| && !CommentAt(src, i) && src[i] != ';' && (directives ==> !DirectiveAt(src, i))
     && NextPos(src, i).Some? && NextPos(src, i).value <= j && Copied(src, NextPos(src, i).value, j, directives))
  }

  lemma {:induction false} LexOver(src: string, i: nat, j: nat, cur: string, done: seq<string>, directives: bool)
    requires i <= j <= |src| && Copied(src, i, j, directives)
    ensures Lex(src, i, cur, ";", done, directives) == Lex(src, j, cur + src[i..j], ";", done, directives)
    decreases j - i
  {
    if i == j {
      assert cur + src[i..j] == cur;
    } else {
      var m := NextPos(src, i).value;
      CopyStep(src, i, cur, done, directives);
      LexOver(src, m, j, cur + src[i..m], done, directives);
      Regroup(cur, src[i..m], src[m..j]);
      assert src[i..m] + src[m..j] == src[i..j];
    }
  }

  lemma {:induction false} CleanIsCopied(src: string, p: nat, s: string, i: nat, directives: bool)
    requires Inside(src, p, s) && i <= |s| && LineStart(src, p)
    requires p + |s| == |src| || src[p + |s|] == ';'
    requires Clean(s, i) && (directives ==> DirectiveFree(s, i))
    ensures Copied(src, p + i, p + |s|, directives)
    decreases |s| - i
  {
    if i < |s| {
      TokenInside(src, p, s, i);
      DirectiveInside(src, p, s, i);
      CleanIsCopied(src, p, s, NextPos(s, i).value, directives);
    }
  }

  lemma LexInside(src: string, p: nat, s: string, cur: string, done: seq<string>, directives: bool)
    requires Inside(src, p, s) && LineStart(src, p)
    requires p + |s| == |src| || src[p + |s|] == ';'
    requires Clean(s, 0) && (directives ==> DirectiveFree(s, 0))
    ensures Lex(src, p, cur, ";", done, directives) == Lex(src, p + |s|, cur + s, ";", done, directives)
  {
    CleanIsCopied(src, p, s, 0, directives);
    LexOver(src, p, p + |s|, cur, done, directives);
    assert src[p..p + |s|] == s;
  }

  // ----- joining, then splitting -------------------------------------------------------------------

  function Join(list: seq<string>): string
    requires list != []
  {
    if |list| == 1 then list[0] else list[0] + ";\n" + Join(list[1..])
  }

  // What the splitter can return as one statement.
  predicate Statement(s: string) { s != "" && TrimSpace(s) == s && Clean(s, 0) && DirectiveFree(s, 0) }

  // After a separator comes a line feed, which starts no directive.
  lemma LineFeedStep(src: string, i: nat, done: seq<string>)
    requires i < |src| && src[i] == '\n'
    ensures Lex(src, i, "", ";", done, true) == Lex(src, i + 1, "\n", ";", done, true)
  {
    DirectiveText(src, i);
    CopyStep(src, i, "", done, true);
    assert "" + src[i..i + 1] == "\n";
  }

  lemma AfterLineFeed(s: string, cur: string)
    requires TrimSpace(s) == s && (cur == "" || cur == "\n")
    ensures TrimSpace(cur + s) == s
  {
    if cur == "" { assert cur + s == s; } else { assert (cur + s)[1..] == s; }
  }

  // One statement and what separates it from the next one.
  lemma SplitOne(src: string, p: nat, s: string, cur: string, done: seq<string>)
    requires Statement(s) && Inside(src, p, s) && LineStart(src, p) && (cur == "" || cur == "\n")
    requires p + |s| + 2 <= |src| && src[p + |s|] == ';' && src[p + |s| + 1] == '\n'
    ensures Lex(src, p, cur, ";", done, true) == Lex(src, p + |s| + 2, "\n", ";", done + [s], true)
  {
    hide Lex, Clean, DirectiveFree, Inside, TrimSpace;
    var e := p + |s|;
    AfterLineFeed(s, cur);
    LexInside(src, p, s, cur, done, true);
    SeparatorStep(src, e, cur + s, done, true);
    LineFeedStep(src, e + 1, done + [s]);
  }

  lemma SplitLast(src: string, p: nat, s: string, cur: string, done: seq<string>)
    requires Statement(s) && Inside(src, p, s) && LineStart(src, p) && (cur == "" || cur == "\n") && p + |s| == |src|
    ensures Lex(src, p, cur, ";", done, true) == Ok(done + [s])
  {
    AfterLineFeed(s, cur);
    LexInside(src, p, s, cur, done, true);
  }

  predicate AllStatements(list: seq<string>) { forall k | 0 <= k < |list| :: Statement(list[k]) }

  lemma JoinHead(src: string, p: nat, list: seq<string>)
    requires list != [] && p <= |src| && src[p..] == Join(list)
    ensures Inside(src, p, list[0])
    ensures var e := p + |list[0]|;
      if |list| == 1 then e == |src|
      else e + 2 <= |src| && src[e] == ';' && src[e + 1] == '\n' && src[e + 2..] == Join(list[1..])
  {
    var s, tail := list[0], src[p..];
    assert forall k | 0 <= k < |s| :: src[p + k] == tail[k] == s[k];
    if |list| > 1 {
      assert tail == s + (";\n" + Join(list[1..]));
      assert src[p + |s|] == tail[|s|] == ';' && src[p + |s| + 1] == tail[|s| + 1] == '\n';
      assert src[p + |s| + 2..] == tail[|s| + 2..] == Join(list[1..]);
    }
  }

  lemma {:induction false} SplitJoined(src: string, p: nat, list: seq<string>, cur: string, done: seq<string>)
    requires list != [] && AllStatements(list)
    requires p <= |src| && src[p..] == Join(list) && LineStart(src, p) && (cur == "" || cur == "\n")
    ensures Lex(src, p, cur, ";", done, true) == Ok(done + list)
    decreases |list|
  {
    hide Lex, Statement, Join, Inside;
    var s := list[0];
    JoinHead(src, p, list);
    OneThenRest(list, done);
    if |list| == 1 {
      SplitLast(src, p, s, cur, done);
    } else {
      SplitOne(src, p, s, cur, done);
      SplitJoined(src, p + |s| + 2, list[1..], "\n", done + [s]);
    }
  }

  lemma OneThenRest(list: seq<string>, done: seq<string>)
    requires list != [] && AllStatements(list)
    ensures Statement(list[0]) && AllStatements(list[1..])
    ensures (done + [list[0]]) + list[1..] == done + list && (|list| == 1 ==> done + [list[0]] == done + list)
  {
    Regroup(done, [list[0]], list[1..]);
    assert [list[0]] + list[1..] == list;
    forall k | 0 <= k < |list[1..]| ensures Statement(list[1..][k]) { assert list[1..][k] == list[k + 1]; }
  }

  lemma SplitScript(src: string, list: seq<string>)
    requires list != [] && AllStatements(list) && src == Join(list)
    ensures Split(src) == Ok(list)
  {
    assert src[0..] == src;
    SplitJoined(src, 0, list, "", []);
    assert [] + list == list;
  }

  /** Joining statements with ";\n" and splitting the script gives them back. */
  lemma SplitUndoesJoin(list: seq<string>)
    requires list != [] && AllStatements(list)
    ensures Split(Join(list)) == Ok(list)
  {
    SplitScript(Join(list), list);
  }

  // ----- trimming ----------------------------------------------------------------------------------

  lemma {:induction false} QuotePrefix(s: string, m: nat, i: nat, q: char)
    requires m <= |s| && QuoteEnd(s, i, q).Some? && QuoteEnd(s, i, q).value <= m
    ensures QuoteEnd(s[..m], i, q) == QuoteEnd(s, i, q)
    decreases |s| - i
  {
    if s[i] == '\\' && q != '`' && i + 1 < |s| {
      QuotePrefix(s, m, i + 2, q);
    } else if s[i] == q {
      if i + 1 < |s| && s[i + 1] == q { QuotePrefix(s, m, i + 2, q); }
    } else {
      QuotePrefix(s, m, i + 1, q);
    }
  }

  lemma {:induction false} QuoteCloses(s: string, i: nat, q: char)
    requires QuoteEnd(s, i, q).Some?
    ensures s[QuoteEnd(s, i, q).value - 1] == q
    decreases |s| - i
  {
    if s[i] == '\\' && q != '`' && i + 1 < |s| {
      QuoteCloses(s, i + 2, q);
    } else if s[i] == q {
      if i + 1 < |s| && s[i + 1] == q { QuoteCloses(s, i + 2, q); }
    } else {
      QuoteCloses(s, i + 1, q);
    }
  }

  lemma {:induction false} DropLast(s: string, i: nat)
    requires s != "" && IsSpace(s[|s| - 1]) && i < |s| && Clean(s, i)
    ensures Clean(s[..|s| - 1], i) && Pieces(s[..|s| - 1], i) == Pieces(s, i)
    decreases |s| - i
  {
    var n := |s| - 1;
    var t := s[..n];
    if i < n {
      var j := NextPos(s, i).value;
      if IsQuote(s[i]) {
        QuoteCloses(s, i + 1, s[i]);
        QuotePrefix(s, n, i + 1, s[i]);
      }
      assert NextPos(t, i) == Some(j) && t[i..j] == s[i..j];
      if j < n {
        DropLast(s, j);
      } else {
        assert Pieces(s, j) == Pieces(s, n) == [] + Pieces(s, n + 1);
      }
    }
  }

  // A token of a text is the same token of the rest it lies in.
  lemma TokenSuffix(s: string, p: nat, i: nat)
    requires p + i < |s| && !CommentAt(s, p + i) && NextPos(s, p + i).Some?
    ensures var t, j := s[p..], NextPos(s, p + i).value;
      && t[i] == s[p + i] && !CommentAt(t, i) && NextPos(t, i) == Some((j - p) as nat) && t[i..j - p] == s[p + i..j]
  {
    if IsQuote(s[p + i]) { QuoteSuffix(s, p, i + 1, s[p + i]); }
  }

  // The rest of a clean text, read on its own.
  lemma {:induction false} Suffix(s: string, p: nat, i: nat)
    requires p + i <= |s| && Clean(s, p + i)
    ensures Clean(s[p..], i) && Pieces(s[p..], i) == Pieces(s, p + i)
    decreases |s| - i
  {
    if p + i < |s| {
      TokenSuffix(s, p, i);
      Suffix(s, p, NextPos(s, p + i).value - p);
    }
  }

  lemma {:induction false} QuoteSuffix(s: string, p: nat, i: nat, q: char)
    requires p + i <= |s| && QuoteEnd(s, p + i, q).Some?
    ensures QuoteEnd(s[p..], i, q) == Some((QuoteEnd(s, p + i, q).value - p) as nat)
    decreases |s| - i
  {
    if s[p + i] == '\\' && q != '`' && p + i + 1 < |s| {
      QuoteSuffix(s, p, i + 2, q);
    } else if s[p + i] == q {
      if p + i + 1 < |s| && s[p + i + 1] == q { QuoteSuffix(s, p, i + 2, q); }
    } else {
      QuoteSuffix(s, p, i + 1, q);
    }
  }

  lemma {:induction false} TrimLeftKeeps(s: string)
    requires Clean(s, 0)
    ensures Clean(TrimLeft(s), 0) && Pieces(TrimLeft(s), 0) == Pieces(s, 0)
    ensures TrimLeft(s) == "" || !IsSpace(TrimLeft(s)[0])
  {
    if s != "" && IsSpace(s[0]) {
      assert Pieces(s, 0) == [] + Pieces(s, 1);
      Suffix(s, 1, 0);
      TrimLeftKeeps(s[1..]);
    }
  }

  lemma {:induction false} TrimRightKeeps(s: string)
    requires Clean(s, 0) && (s == "" || !IsSpace(s[0]))
    ensures Clean(TrimRight(s), 0) && Pieces(TrimRight(s), 0) == Pieces(s, 0)
    ensures TrimSpace(TrimRight(s)) == TrimRight(s)
  {
    if s != "" && IsSpace(s[|s| - 1]) {
      DropLast(s, 0);
      TrimRightKeeps(s[..|s| - 1]);
    }
  }

  lemma TrimKeeps(s: string)
    requires Clean(s, 0)
    ensures Clean(TrimSpace(s), 0) && Pieces(TrimSpace(s), 0) == Pieces(s, 0)
    ensures TrimSpace(TrimSpace(s)) == TrimSpace(s)
  {
    TrimLeftKeeps(s);
    TrimRightKeeps(TrimLeft(s));
  }

  // ----- what is collected -------------------------------------------------------------------------

  // Clean text at the end of a longer text reads the same there.
  lemma {:induction false} AtTheEnd(all: string, p: nat, t: string, i: nat)
    requires i <= |t| && Clean(t, i) && Inside(all, p, t) && p + |t| == |all|
    ensures Clean(all, p + i) && Pieces(all, p + i) == Pieces(t, i)
    decreases |t| - i
  {
    if i < |t| {
      TokenInside(all, p, t, i);
      AtTheEnd(all, p, t, NextPos(t, i).value);
    }
  }

  lemma SameToken(all: string, cur: string, t: string, k: nat)
    requires k < |cur| && Clean(cur, k) && (t == "" || Separate(cur, t[0]))
    requires Inside(all, 0, cur) && Inside(all, |cur|, t) && |all| == |cur| + |t|
    ensures var j := NextPos(cur, k).value;
      all[k] == cur[k] && !CommentAt(all, k) && NextPos(all, k) == Some(j) && all[k..j] == cur[k..j]
  {
    assert t != "" ==> all[|cur|] == t[0];
    TokenInside(all, 0, cur, k);
  }

  lemma {:induction false} Append(all: string, cur: string, t: string, k: nat)
    requires k <= |cur| && Clean(cur, k) && Clean(t, 0) && (t == "" || Separate(cur, t[0]))
    requires Inside(all, 0, cur) && Inside(all, |cur|, t) && |all| == |cur| + |t|
    ensures Clean(all, k) && Pieces(all, k) == Pieces(cur, k) + Pieces(t, 0)
    decreases |cur| - k
  {
    if k == |cur| {
      AtTheEnd(all, k, t, 0);
    } else {
      var j := NextPos(cur, k).value;
      SameToken(all, cur, t, k);
      Append(all, cur, t, j);
      Regroup(if IsSpace(cur[k]) then [] else [cur[k..j]], Pieces(cur, j), Pieces(t, 0));
    }
  }

  // Appending clean text that does not merge with the end of what is there.
  lemma Appended(cur: string, t: string)
    requires Clean(cur, 0) && Clean(t, 0) && (t == "" || Separate(cur, t[0]))
    ensures Clean(cur + t, 0) && Pieces(cur + t, 0) == Pieces(cur, 0) + Pieces(t, 0)
  {
    Append(cur + t, cur, t, 0);
  }

  predicate CleanList(list: seq<string>) {
    forall k | 0 <= k < |list| :: list[k] != "" && TrimSpace(list[k]) == list[k] && Clean(list[k], 0)
  }

  // The text collected so far does not merge with the rest of the source.
  predicate Fits(src: string, i: nat, cur: string) { Clean(cur, 0) && (i < |src| ==> Separate(cur, src[i])) }

  lemma AddKeeps(done: seq<string>, cur: string)
    requires CleanList(done) && Clean(cur, 0)
    ensures CleanList(AddStatement(done, cur))
    ensures AllPieces(AddStatement(done, cur)) == AllPieces(done) + Pieces(cur, 0)
  {
    TrimKeeps(cur);
    var s := TrimSpace(cur);
    if s != "" { assert (done + [s])[..|done|] == done; }
  }

  lemma BlankKeeps(cur: string, blank: string)
    requires Clean(cur, 0) && blank in {" ", "  ", " \n"}
    ensures Clean(cur + blank, 0) && Pieces(cur + blank, 0) == Pieces(cur, 0)
  {
    assert Clean(blank, |blank|);
    assert Clean(blank, |blank| - 1);
    assert Pieces(blank, |blank| - 1) == [] + Pieces(blank, |blank|) == [];
    assert Clean(blank, 0) && Pieces(blank, 0) == [];
    Appended(cur, blank);
  }

  // A closed token on its own, that is neither a comment nor a separator.
  lemma TokenAlone(src: string, i: nat, j: nat)
    requires i < j <= |src| && NextPos(src, i) == Some(j) && !CommentAt(src, i) && src[i] != ';'
    ensures Clean(src[i..j], 0) && Pieces(src[i..j], 0) == if IsSpace(src[i]) then [] else [src[i..j]]
    ensures IsQuote(src[i]) ==> src[j - 1] == src[i] && (j < |src| ==> src[j] != src[i])
  {
    var t := src[i..j];
    if IsQuote(src[i]) {
      QuoteCloses(src, i + 1, src[i]);
      QuoteNotDoubled(src, i + 1, src[i]);
      QuotePrefix(src, j, i + 1, src[i]);
      QuoteSuffix(src[..j], i, 1, src[i]);
      assert src[..j][i..] == t;
    }
    assert NextPos(t, 0) == Some(|t|) && t[0..|t|] == t;
    assert Pieces(t, |t|) == [];
  }

  // Copying such a token to the collected text.
  lemma CopyToken(src: string, i: nat, cur: string, j: nat)
    requires i < j <= |src| && NextPos(src, i) == Some(j) && !CommentAt(src, i) && src[i] != ';'
    requires Fits(src, i, cur)
    ensures Fits(src, j, cur + src[i..j])
    ensures Pieces(cur + src[i..j], 0) + Pieces(src, j) == Pieces(cur, 0) + Pieces(src, i)
  {
    var t := src[i..j];
    TokenAlone(src, i, j);
    Appended(cur, t);
    Regroup(Pieces(cur, 0), Pieces(t, 0), Pieces(src, j));
    assert (cur + t)[|cur + t| - 1] == src[j - 1];
  }

  lemma {:induction false} QuoteNotDoubled(s: string, i: nat, q: char)
    requires QuoteEnd(s, i, q).Some?
    ensures var j := QuoteEnd(s, i, q).value; j < |s| ==> s[j] != q
    decreases |s| - i
  {
    if s[i] == '\\' && q != '`' && i + 1 < |s| {
      QuoteNotDoubled(s, i + 2, q);
    } else if s[i] == q {
      if i + 1 < |s| && s[i + 1] == q { QuoteNotDoubled(s, i + 2, q); }
    } else {
      QuoteNotDoubled(s, i + 1, q);
    }
  }

  predicate Keeps(r: Statements, pieces: seq<string>) {
    r.Ok? ==> r.value != [] && CleanList(r.value) && AllPieces(r.value) == pieces
  }

  function Total(src: string, i: nat, cur: string, done: seq<string>): seq<string> {
    AllPieces(done) + Pieces(cur, 0) + Pieces(src, i)
  }

  lemma SeparatorKeeps(src: string, i: nat, cur: string, done: seq<string>)
    requires i < |src| && src[i] == ';' && Clean(cur, 0) && CleanList(done)
    ensures Fits(src, i + 1, "") && CleanList(AddStatement(done, cur))
    ensures Total(src, i + 1, "", AddStatement(done, cur)) == Total(src, i, cur, done)
  {
    AddKeeps(done, cur);
    assert Pieces(src, i) == [] + Pieces(src, i + 1) == Pieces(src, i + 1);
    var before := AllPieces(done) + Pieces(cur, 0);
    assert Pieces("", 0) == [] && before + [] == before;
  }

  lemma CommentKeeps(src: string, i: nat, cur: string, done: seq<string>)
    requires i < |src| && CommentAt(src, i) && NextPos(src, i).Some? && Clean(cur, 0)
    ensures Fits(src, NextPos(src, i).value, cur + Blank(src, i))
    ensures Total(src, NextPos(src, i).value, cur + Blank(src, i), done) == Total(src, i, cur, done)
  {
    BlankKeeps(cur, Blank(src, i));
    assert Pieces(src, i) == [] + Pieces(src, NextPos(src, i).value);
  }

  lemma CopyKeeps(src: string, i: nat, cur: string, done: seq<string>)
    requires i < |src| && !CommentAt(src, i) && src[i] != ';' && NextPos(src, i).Some? && Fits(src, i, cur)
    ensures var j := NextPos(src, i).value;
      Fits(src, j, cur + src[i..j]) && Total(src, j, cur + src[i..j], done) == Total(src, i, cur, done)
  {
    var j := NextPos(src, i).value;
    CopyToken(src, i, cur, j);
    assert Total(src, j, cur + src[i..j], done) == AllPieces(done) + (Pieces(cur + src[i..j], 0) + Pieces(src, j));
    assert Total(src, i, cur, done) == AllPieces(done) + (Pieces(cur, 0) + Pieces(src, i));
  }

  lemma {:induction false} LexKeeps(src: string, i: nat, cur: string, done: seq<string>)
    requires i <= |src| && Fits(src, i, cur) && CleanList(done)
    ensures Keeps(Lex(src, i, cur, ";", done, false), Total(src, i, cur, done))
    decreases |src| - i
  {
    if i == |src| {
      AddKeeps(done, cur);
      assert Total(src, i, cur, done) == AllPieces(AddStatement(done, cur));
    } else if src[i] == ';' {
      SeparatorStep(src, i, cur, done, false);
      SeparatorKeeps(src, i, cur, done);
      LexKeeps(src, i + 1, "", AddStatement(done, cur));
    } else if NextPos(src, i).None? {
      UnclosedStep(src, i, cur, done, false);
    } else if CommentAt(src, i) {
      CommentStep(src, i, cur, done, false);
      CommentKeeps(src, i, cur, done);
      LexKeeps(src, NextPos(src, i).value, cur + Blank(src, i), done);
    } else {
      CopyStep(src, i, cur, done, false);
      CopyKeeps(src, i, cur, done);
      LexKeeps(src, NextPos(src, i).value, cur + src[i..NextPos(src, i).value], done);
    }
  }

  /**
   Without a directive every statement returned is trimmed, closed and free of comments and
   separators, and together the statements hold the literals and other non-blank characters of the
   source, unchanged and in order.
   */
  lemma StatementsKeepTheText(src: string)
    requires DirectiveFree(src, 0) && Split(src).Ok?
    ensures Split(src).value != [] && CleanList(Split(src).value)
    ensures AllPieces(Split(src).value) == Pieces(src, 0)
  {
    SplittersAgree(src);
    LexKeeps(src, 0, "", []);
    assert Total(src, 0, "", []) == Pieces(src, 0);
  }

  // ----- when splitting succeeds -------------------------------------------------------------------

  // Every literal and every block comment from i on is closed.
  predicate Closed(s: string, i: nat)
    decreases |s| - i
  {
    i >= |s| || (NextPos(s, i).Some? && Closed(s, NextPos(s, i).value))
  }

  lemma TextHasPieces(s: string)
    requires s != "" && TrimSpace(s) == s && Clean(s, 0)
    ensures Pieces(s, 0) != []
  {
    TrimmedStart(s);
  }

  lemma {:induction false} TrimsAreShorter(s: string)
    ensures |TrimLeft(s)| <= |s| && |TrimRight(s)| <= |s|
    ensures |TrimLeft(s)| == |s| ==> TrimLeft(s) == s
    decreases |s|
  {
    if s != "" { TrimsAreShorter(s[1..]); TrimsAreShorter(s[..|s| - 1]); }
  }

  lemma TrimmedFromTheLeft(s: string)
    requires TrimSpace(s) == s
    ensures TrimLeft(s) == s && TrimRight(s) == s
  {
    TrimsAreShorter(s);
    TrimsAreShorter(TrimLeft(s));
  }

  // A trimmed text does not begin with a blank.
  lemma TrimmedStart(s: string)
    requires s != "" && TrimSpace(s) == s
    ensures !IsSpace(s[0])
  {
    TrimmedFromTheLeft(s);
    if IsSpace(s[0]) { TrimsAreShorter(s[1..]); }
  }

  lemma {:induction false} NoPiecesNoText(list: seq<string>)
    requires CleanList(list)
    ensures AllPieces(list) == [] <==> list == []
  {
    if list != [] { TextHasPieces(list[|list| - 1]); }
  }

  // What the lexer answers is decided by the source alone.
  predicate Answers(r: Statements, closed: bool, pieces: seq<string>) {
    if !closed then r == Err(Unterminated) else if pieces == [] then r == Err(Empty) else r.Ok?
  }

  lemma EndAnswers(src: string, cur: string, done: seq<string>)
    requires Clean(cur, 0) && CleanList(done)
    ensures Answers(Lex(src, |src|, cur, ";", done, false), true, Total(src, |src|, cur, done))
  {
    AddKeeps(done, cur);
    NoPiecesNoText(AddStatement(done, cur));
    assert Total(src, |src|, cur, done) == AllPieces(AddStatement(done, cur));
  }

  lemma SeparatorIsClosed(src: string, i: nat)
    requires i < |src| && src[i] == ';'
    ensures Closed(src, i) <==> Closed(src, i + 1)
  {
  }

  lemma {:induction false} LexAnswers(src: string, i: nat, cur: string, done: seq<string>)
    requires i <= |src| && Fits(src, i, cur) && CleanList(done)
    ensures Answers(Lex(src, i, cur, ";", done, false), Closed(src, i), Total(src, i, cur, done))
    decreases |src| - i
  {
    hide Lex, AddStatement, Pieces, AllPieces, Total, CleanList, Clean, Separate, LineCommentAt, BlockCommentAt;
    hide QuoteEnd, BlockEnd, LineEnd;
    if i == |src| {
      EndAnswers(src, cur, done);
    } else if src[i] == ';' {
      SeparatorIsClosed(src, i);
      SeparatorStep(src, i, cur, done, false);
      SeparatorKeeps(src, i, cur, done);
      LexAnswers(src, i + 1, "", AddStatement(done, cur));
    } else if NextPos(src, i).None? {
      UnclosedStep(src, i, cur, done, false);
    } else if CommentAt(src, i) {
      CommentStep(src, i, cur, done, false);
      CommentKeeps(src, i, cur, done);
      LexAnswers(src, NextPos(src, i).value, cur + Blank(src, i), done);
    } else {
      CopyStep(src, i, cur, done, false);
      CopyKeeps(src, i, cur, done);
      LexAnswers(src, NextPos(src, i).value, cur + src[i..NextPos(src, i).value], done);
    }
  }

  /**
   Without a directive, splitting fails exactly if a literal or block comment is not closed, or if there
   is nothing but comments, separators and blank space.
   */
  lemma SplitSucceedsIff(src: string)
    requires DirectiveFree(src, 0)
    ensures Split(src) == Err(Unterminated) <==> !Closed(src, 0)
    ensures Split(src) == Err(Empty) <==> Closed(src, 0) && Pieces(src, 0) == []
    ensures Split(src).Ok? <==> Closed(src, 0) && Pieces(src, 0) != []
  {
    SplittersAgree(src);
    LexAnswers(src, 0, "", []);
    assert Total(src, 0, "", []) == Pieces(src, 0);
  }

  // ----- literals ----------------------------------------------------------------------------------

  // What may stand between the quotes: any other character, the quote doubled, and, except in back
  // quotes, a backslash with any character after it.
  datatype Inner = Other(c: char) | Doubled | Escaped(c: char)

  predicate InnerOk(x: Inner, q: char) {
    match x
    case Other(c) => c != q && (c == '\\' ==> q == '`')
    case Doubled => true
    case Escaped(_) => q != '`'
  }

  function Body(inner: seq<Inner>, q: char): string {
    if inner == [] then "" else InnerText(inner[0], q) + Body(inner[1..], q)
  }

  function Literal(inner: seq<Inner>, q: char): string { [q] + Body(inner, q) + [q] }

  predicate InnersOk(inner: seq<Inner>, q: char) { forall x | x in inner :: InnerOk(x, q) }

  function InnerText(x: Inner, q: char): string {
    match x
    case Other(c) => [c]
    case Doubled => [q, q]
    case Escaped(c) => ['\\', c]
  }

  // One part between the quotes is passed over.
  lemma InnerStep(src: string, i: nat, x: Inner, q: char)
    requires IsQuote(q) && InnerOk(x, q)
    requires var t := InnerText(x, q);
      i + |t| < |src| && src[i] == t[0] && (|t| == 2 ==> src[i + 1] == t[1])
    ensures QuoteEnd(src, i, q) == QuoteEnd(src, i + |InnerText(x, q)|, q)
  {
  }

  lemma {:induction false} LiteralCloses(src: string, i: nat, inner: seq<Inner>, q: char)
    requires IsQuote(q) && InnersOk(inner, q)
    requires var b := Body(inner, q) + [q];
      i + |b| <= |src| && src[i..i + |b|] == b && (i + |b| < |src| ==> src[i + |b|] != q)
    ensures QuoteEnd(src, i, q) == Some(i + |Body(inner, q)| + 1)
    decreases |inner|
  {
    hide IsQuote, QuoteEnd;
    var b := Body(inner, q) + [q];
    assert forall k | 0 <= k < |b| :: src[i + k] == src[i..i + |b|][k] == b[k];
    assert src[i + 0] == b[0];
    if inner == [] {
      CloseStep(src, i, q);
    } else {
      var rest, n := Body(inner[1..], q) + [q], |InnerText(inner[0], q)|;
      assert inner[0] in inner && forall x | x in inner[1..] :: x in inner;
      assert b == InnerText(inner[0], q) + rest;
      assert src[i + n..i + n + |rest|] == src[i..i + |b|][n..] == rest;
      assert n == 2 ==> src[i + 1] == b[1];
      InnerStep(src, i, inner[0], q);
      LiteralCloses(src, i + n, inner[1..], q);
    }
  }

  // The quote that closes a literal.
  lemma CloseStep(src: string, i: nat, q: char)
    requires IsQuote(q) && i < |src| && src[i] == q && (i + 1 < |src| ==> src[i + 1] != q)
    ensures QuoteEnd(src, i, q) == Some(i + 1)
  {
  }

  lemma QuotesAreNotBlank(q: char)
    requires IsQuote(q)
    ensures !IsSpace(q)
  {
    assert q == '\'' || q == '"' || q == '`';
  }

  lemma LiteralIsClean(inner: seq<Inner>, q: char)
    requires IsQuote(q) && InnersOk(inner, q)
    ensures Clean(Literal(inner, q), 0) && TrimSpace(Literal(inner, q)) == Literal(inner, q)
  {
    var s := Literal(inner, q);
    assert s[1..] == Body(inner, q) + [q];
    LiteralCloses(s, 1, inner, q);
    assert Clean(s, |s|);
    QuotesAreNotBlank(q);
    assert s[0] == q && s[|s| - 1] == q;
    assert TrimLeft(s) == s && TrimRight(s) == s;
  }

  lemma NoDirectiveInLiteral(src: string, inner: seq<Inner>, q: char)
    requires IsQuote(q) && InnersOk(inner, q) && src == Literal(inner, q) + ";"
    ensures DirectiveFree(src, 0)
  {
    hide Literal;
    var n := |Literal(inner, q)|;
    assert src[1..n] == Body(inner, q) + [q] && src[0] == q && src[n] == ';' by { LiteralText(src, inner, q); }
    LiteralCloses(src, 1, inner, q);
    DirectiveText(src, 0);
    DirectiveText(src, n);
    assert DirectiveFree(src, n + 1);
    assert DirectiveFree(src, n);
  }

  lemma LiteralText(src: string, inner: seq<Inner>, q: char)
    requires src == Literal(inner, q) + ";"
    ensures var n := |Literal(inner, q)|;
      n == |Body(inner, q)| + 2 && src[1..n] == Body(inner, q) + [q] && src[0] == q && src[n] == ';'
  {
    assert Literal(inner, q)[1..] == Body(inner, q) + [q];
    assert src[1..|Literal(inner, q)|] == Literal(inner, q)[1..];
  }

  /** Whatever stands between the quotes, a literal is one statement, unchanged. */
  lemma LiteralsAreKeptWhole(inner: seq<Inner>, q: char)
    requires IsQuote(q) && InnersOk(inner, q)
    ensures Split(Literal(inner, q) + ";") == Ok([Literal(inner, q)])
  {
    hide Clean, DirectiveFree, Split, SplitPlain, TrimSpace, Body, InnersOk;
    var s := Literal(inner, q);
    LiteralIsClean(inner, q);
    OneStatement(s + ";", s);
    NoDirectiveInLiteral(s + ";", inner, q);
    SplittersAgree(s + ";");
  }

  /** Splitting is idempotent: the joined statements split into themselves. */
  lemma ResplittingChangesNothing(src: string)
    requires DirectiveFree(src, 0) && Split(src).Ok?
    requires forall k | 0 <= k < |Split(src).value| :: DirectiveFree(Split(src).value[k], 0)
    ensures Split(src).value != [] && Split(Join(Split(src).value)) == Split(src)
  {
    StatementsKeepTheText(src);
    SplitUndoesJoin(Split(src).value);
  }

  // ----- where the conditions matter ---------------------------------------------------------------

  const LONE_DIRECTIVE := DIRECTIVE + ";"

  lemma ObeyDirective(src: string)
    requires src == LONE_DIRECTIVE
    ensures DirectiveAt(src, 0) && Split(src) == Err(Empty)
  {
    assert src[0..|DIRECTIVE|] == DIRECTIVE;
    var end := LineEnd(src, |DIRECTIVE|);
    assert src[|DIRECTIVE|] == ';' && end == |src| == |DIRECTIVE| + 1;
    var next := src[|DIRECTIVE|..end];
    assert next == ";" && TrimSpace(next) == next;
    assert TrimSpace("") == "";
    assert Lex(src, 0, "", ";", [], true) == Lex(src, end, "", ";", [], true);
  }

  // One clean text and its separator.
  lemma OneStatement(src: string, s: string)
    requires src == s + ";" && Clean(s, 0) && TrimSpace(s) != ""
    ensures SplitPlain(src) == Ok([TrimSpace(s)])
  {
    LexInside(src, 0, s, "", [], false);
    assert "" + s == s;
    SeparatorStep(src, |s|, s, [], false);
    assert TrimSpace("") == "";
    assert AddStatement([], s) == [TrimSpace(s)];
  }

  lemma TrimDirective()
    ensures TrimSpace(DIRECTIVE) == "DELIMITER"
  {
    assert TrimRight("DELIMITER") == "DELIMITER" == DIRECTIVE[..|DIRECTIVE| - 1];
  }

  /** A directive line divides the splitters: one obeys it, the other takes it for a statement. */
  lemma DirectivesDivide()
    ensures !DirectiveFree(LONE_DIRECTIVE, 0)
    ensures Split(LONE_DIRECTIVE) == Err(Empty) && SplitPlain(LONE_DIRECTIVE) == Ok(["DELIMITER"])
  {
    ObeyDirective(LONE_DIRECTIVE);
    TrimDirective();
    PlainText(DIRECTIVE, 0);
    OneStatement(LONE_DIRECTIVE, DIRECTIVE);
  }

  // Text without any character that means something to the lexer.
  lemma {:induction false} PlainText(s: string, i: nat)
    requires forall k | 0 <= k < |s| :: s[k] !in "-#/;" && !IsQuote(s[k])
    ensures Clean(s, i)
    decreases |s| - i
  {
    if i < |s| { PlainText(s, i + 1); }
  }
}
