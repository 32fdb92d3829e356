/** What a line of a C-like source is, as text: a sequence of plain characters,
    quoted literals and comments. The lexer of the line counter, and with it the
    scanner, finds exactly these pieces in every line. */
module LineTokens {
  import opened Wrappers
  import opened PyText
  import opened LineCounter

  /** The open forms, and the line comment, go on to the end of the line. */
  datatype Token =
    | Plain(c: char)
    | Literal(quote: char, body: string)
    | OpenLiteral(quote: char, body: string)
    | BlockComment(body: string)
    | OpenBlock(body: string)
    | RestComment(body: string)
  {
    function Text(): string {
      match this
      case Plain(c) => [c]
      case Literal(q, body) => [q] + body + [q]
      case OpenLiteral(q, body) => [q] + body
      case BlockComment(body) => "/*" + body + "*/"
      case OpenBlock(body) => "/*" + body
      case RestComment(body) => "//" + body
    }

    predicate ToTheEnd() {
      OpenLiteral? || OpenBlock? || RestComment?
    }

    predicate IsComment() {
      BlockComment? || OpenBlock? || RestComment?
    }

    function Sort(): CharClass {
      if IsComment() then Comment else if Plain? && IsSpace(c) then Space else Code
    }
  }

  predicate IsQuote(c: char) {
    c == '"' || c == '\''
  }

  /** The inside of a literal: characters other than the quote and the backslash, and
      backslashes each with the character behind it. */
  predicate Quotable(body: string, quote: char) {
    || body == ""
    || (body[0] != quote && body[0] != '\\' && Quotable(body[1..], quote))
    || (|body| >= 2 && body[0] == '\\' && Quotable(body[2..], quote))
  }

  /** The inside of a literal and a last backslash. */
  predicate EndsEscaping(body: string, quote: char) {
    body != "" && body[|body| - 1] == '\\' && Quotable(body[..|body| - 1], quote)
  }

  /** The inside of a block comment: its first closing delimiter is the one behind it. */
  predicate NoClose(body: string) {
    forall k :: 0 <= k < |body| ==> !ClosesAt(body + "*/", k)
  }

  predicate ValidToken(t: Token) {
    match t
    case Plain(c) => !IsQuote(c)
    case Literal(q, body) => IsQuote(q) && Quotable(body, q)
    case OpenLiteral(q, body) => IsQuote(q) && (Quotable(body, q) || EndsEscaping(body, q))
    case BlockComment(body) => NoClose(body)
    case OpenBlock(body) => forall k :: 0 <= k < |body| ==> !ClosesAt(body, k)
    case RestComment(body) => true
  }

  /** The tokens of a line: only the last one goes on to the end, and a plain slash does
      not begin a comment. */
  predicate Line(tokens: seq<Token>) {
    tokens == [] ||
    var t, rest := tokens[0], Text(tokens[1..]);
    && ValidToken(t) && Line(tokens[1..])
    && (t.ToTheEnd() ==> rest == "")
    && (t == Plain('/') && rest != "" ==> rest[0] != '/' && rest[0] != '*')
  }

  function Text(tokens: seq<Token>): string {
    if tokens == [] then "" else tokens[0].Text() + Text(tokens[1..])
  }

  function Sorts(tokens: seq<Token>): (sorts: seq<CharClass>) {
    if tokens == [] then [] else seq(|tokens[0].Text()|, _ => tokens[0].Sort()) + Sorts(tokens[1..])
  }

  // ----- the lexer looks ahead only

  lemma {:induction false} ClassesFrom(line: string, i: nat, rest: string, s: LexState)
    requires i <= |line| && rest == line[i..]
    ensures Classes(line, i, s) == Classes(rest, 0, s) && Lex(line, i, s) == Lex(rest, 0, s)
    decreases |line| - i
  {
    if i < |line| {
      var next := LexChar(s, line[i], LineCounter.Next(line, i)).state;
      ClassesFrom(line, i + 1, line[i + 1..], next);
      ClassesFrom(rest, 1, rest[1..], next);
      assert rest[1..] == line[i + 1..];
    }
  }

  /** One character, and the rest of the line. */
  lemma FirstChar(line: string, s: LexState)
    requires line != ""
    ensures var l := LexChar(s, line[0], if |line| > 1 then Some(line[1]) else None);
            && Classes(line, 0, s) == [l.sort] + Classes(line[1..], 0, l.state)
            && Lex(line, 0, s).inBlock == Lex(line[1..], 0, l.state).inBlock
  {
    var l := LexChar(s, line[0], LineCounter.Next(line, 0));
    ClassesFrom(line, 1, line[1..], l.state);
  }

  function Same(sort: CharClass, n: nat): (sorts: seq<CharClass>)
    ensures |sorts| == n
  {
    seq(n, _ => sort)
  }

  lemma OneMore(sort: CharClass, n: nat, rest: seq<CharClass>)
    ensures [sort] + (Same(sort, n) + rest) == Same(sort, n + 1) + rest
  {
  }

  // ----- the inside of a literal

  /** A character of a literal that does not close it. */
  lemma InsideChar(line: string, quote: char)
    requires line != "" && line[0] != quote && line[0] != '\\'
    ensures Classes(line, 0, Quoted(quote)) == [Code] + Classes(line[1..], 0, Quoted(quote))
    ensures Lex(line, 0, Quoted(quote)).inBlock == Lex(line[1..], 0, Quoted(quote)).inBlock
  {
    FirstChar(line, Quoted(quote));
  }

  /** A backslash and the character behind it, whatever that is. */
  lemma EscapedChar(line: string, quote: char)
    requires |line| >= 2 && line[0] == '\\' && IsQuote(quote)
    ensures Classes(line, 0, Quoted(quote)) == [Code, Code] + Classes(line[2..], 0, Quoted(quote))
    ensures Lex(line, 0, Quoted(quote)).inBlock == Lex(line[2..], 0, Quoted(quote)).inBlock
  {
    FirstChar(line, Quoted(quote));
    FirstChar(line[1..], Escaped(quote));
    assert line[1..][1..] == line[2..];
  }

  lemma {:induction false} InsideBody(body: string, quote: char, rest: string)
    requires IsQuote(quote) && Quotable(body, quote)
    ensures Classes(body + rest, 0, Quoted(quote)) == Same(Code, |body|) + Classes(rest, 0, Quoted(quote))
    ensures Lex(body + rest, 0, Quoted(quote)).inBlock == Lex(rest, 0, Quoted(quote)).inBlock
    decreases |body|
  {
    if body == "" {
      assert body + rest == rest;
    } else if body[0] != '\\' {
      InsideChar(body + rest, quote);
      assert (body + rest)[1..] == body[1..] + rest;
      InsideBody(body[1..], quote, rest);
    } else {
      EscapedChar(body + rest, quote);
      assert (body + rest)[2..] == body[2..] + rest;
      InsideBody(body[2..], quote, rest);
    }
  }

  /** From an opening quote to the first unescaped equal one, every character is code,
      and none begins a comment. */
  lemma LiteralLexed(quote: char, body: string, rest: string)
    requires IsQuote(quote) && Quotable(body, quote)
    ensures var line := [quote] + body + [quote] + rest;
            && Classes(line, 0, Normal) == Same(Code, |body| + 2) + Classes(rest, 0, Normal)
            && Lex(line, 0, Normal).inBlock == Lex(rest, 0, Normal).inBlock
  {
    assert [quote] + body + [quote] + rest == [quote] + (body + ([quote] + rest));
    OpensLiteral(quote, body + ([quote] + rest));
    InsideBody(body, quote, [quote] + rest);
    FirstChar([quote] + rest, Quoted(quote));
    assert ([quote] + rest)[1..] == rest;
  }

  lemma OpenBody(body: string, quote: char)
    requires IsQuote(quote) && Quotable(body, quote)
    ensures Classes(body, 0, Quoted(quote)) == Same(Code, |body|) && !Lex(body, 0, Quoted(quote)).inBlock
  {
    assert body + "" == body;
    InsideBody(body, quote, "");
  }

  lemma SplitLast(body: string, inner: string, last: char)
    requires body != "" && inner == body[..|body| - 1] && last == body[|body| - 1]
    ensures body == inner + [last]
  {
  }

  lemma OpenBodyEscaped(body: string, quote: char, inner: string)
    requires IsQuote(quote) && body != "" && body[|body| - 1] == '\\'
    requires inner == body[..|body| - 1] && Quotable(inner, quote)
    ensures Classes(body, 0, Quoted(quote)) == Same(Code, |body|) && !Lex(body, 0, Quoted(quote)).inBlock
  {
    SplitLast(body, inner, '\\');
    InsideBody(inner, quote, ['\\']);
    FirstChar(['\\'], Quoted(quote));
  }

  /** Either quote opens a literal. */
  lemma OpensLiteral(quote: char, rest: string)
    requires IsQuote(quote)
    ensures Classes([quote] + rest, 0, Normal) == [Code] + Classes(rest, 0, Quoted(quote))
    ensures Lex([quote] + rest, 0, Normal).inBlock == Lex(rest, 0, Quoted(quote)).inBlock
  {
    FirstChar([quote] + rest, Normal);
    assert ([quote] + rest)[1..] == rest;
  }

  lemma OpenInside(body: string, quote: char)
    requires ValidToken(OpenLiteral(quote, body))
    ensures Classes(body, 0, Quoted(quote)) == Same(Code, |body|) && !Lex(body, 0, Quoted(quote)).inBlock
  {
    if EndsEscaping(body, quote) {
      OpenBodyEscaped(body, quote, body[..|body| - 1]);
    } else {
      OpenBody(body, quote);
    }
  }

  /** A literal that is not closed ends with the line, even after a last backslash. */
  lemma OpenLiteralLexed(quote: char, body: string)
    requires ValidToken(OpenLiteral(quote, body))
    ensures Classes([quote] + body, 0, Normal) == Same(Code, |body| + 1)
    ensures !Lex([quote] + body, 0, Normal).inBlock
  {
    OpensLiteral(quote, body);
    OpenInside(body, quote);
    assert [Code] + Same(Code, |body|) == Same(Code, |body| + 1);
  }

  // ----- comments

  lemma {:induction false} RestLexed(body: string)
    ensures Classes(body, 0, LineComment) == Same(Comment, |body|) && !Lex(body, 0, LineComment).inBlock
  {
    if body != "" {
      FirstChar(body, LineComment);
      RestLexed(body[1..]);
    }
  }

  lemma NoCloseTail(body: string)
    requires body != "" && NoClose(body)
    ensures NoClose(body[1..])
  {
    forall k | 0 <= k < |body[1..]|
      ensures !ClosesAt(body[1..] + "*/", k)
    {
      assert !ClosesAt(body + "*/", k + 1);
    }
  }

  /** The inside of a block comment and its closing delimiter. */
  lemma {:induction false} BlockLexed(body: string, rest: string)
    requires NoClose(body)
    ensures Classes(body + "*/" + rest, 0, Block) == Same(Comment, |body| + 2) + Classes(rest, 0, Normal)
    ensures Lex(body + "*/" + rest, 0, Block).inBlock == Lex(rest, 0, Normal).inBlock
  {
    var line := body + "*/" + rest;
    FirstChar(line, Block);
    if body == "" {
      assert line[1..] == "/" + rest;
      FirstChar("/" + rest, Closing);
      assert ("/" + rest)[1..] == rest;
    } else {
      assert !ClosesAt(body + "*/", 0);
      assert line[1..] == body[1..] + "*/" + rest;
      NoCloseTail(body);
      BlockLexed(body[1..], rest);
    }
  }

  lemma {:induction false} OpenBlockLexed(body: string)
    requires forall k :: 0 <= k < |body| ==> !ClosesAt(body, k)
    ensures Classes(body, 0, Block) == Same(Comment, |body|) && Lex(body, 0, Block).inBlock
  {
    if body != "" {
      FirstChar(body, Block);
      assert !ClosesAt(body, 0);
      forall k | 0 <= k < |body[1..]|
        ensures !ClosesAt(body[1..], k)
      {
        assert !ClosesAt(body, k + 1);
      }
      OpenBlockLexed(body[1..]);
    }
  }

  /** Outside literals two slashes, and a slash and a star, begin a comment. */
  lemma OpensComment(line: string, tail: string, rest: string, block: bool)
    requires |line| >= 2 && line[0] == '/' && line[1] == (if block then '*' else '/')
    requires tail == line[1..] && rest == line[2..]
    ensures var s := if block then Block else LineComment;
            && Classes(line, 0, Normal) == [Comment, Comment] + Classes(rest, 0, s)
            && Lex(line, 0, Normal).inBlock == Lex(rest, 0, s).inBlock
  {
    FirstChar(line, Normal);
    FirstChar(tail, if block then Opening else LineComment);
    assert tail[1..] == rest;
  }

  // ----- whole lines

  lemma PlainLexed(c: char, rest: string)
    requires !IsQuote(c) && (c == '/' && rest != "" ==> rest[0] != '/' && rest[0] != '*')
    ensures Classes([c] + rest, 0, Normal) == Same(if IsSpace(c) then Space else Code, 1) + Classes(rest, 0, Normal)
    ensures Lex([c] + rest, 0, Normal).inBlock == Lex(rest, 0, Normal).inBlock
  {
    FirstChar([c] + rest, Normal);
    assert ([c] + rest)[1..] == rest;
  }

  lemma BlockTokenLexed(body: string, rest: string)
    requires NoClose(body)
    ensures Classes("/*" + body + "*/" + rest, 0, Normal) == Same(Comment, |body| + 4) + Classes(rest, 0, Normal)
    ensures Lex("/*" + body + "*/" + rest, 0, Normal).inBlock == Lex(rest, 0, Normal).inBlock
  {
    var line := "/*" + body + "*/" + rest;
    OpensComment(line, line[1..], line[2..], true);
    assert line[2..] == body + "*/" + rest;
    BlockLexed(body, rest);
  }

  lemma OpenTokenLexed(body: string, block: bool)
    requires block ==> forall k :: 0 <= k < |body| ==> !ClosesAt(body, k)
    ensures var line := (if block then "/*" else "//") + body;
            Classes(line, 0, Normal) == Same(Comment, |body| + 2) && Lex(line, 0, Normal).inBlock == block
  {
    var line := (if block then "/*" else "//") + body;
    OpensComment(line, line[1..], line[2..], block);
    assert line[2..] == body;
    if block {
      OpenBlockLexed(body);
    } else {
      RestLexed(body);
    }
  }

  /** A token at the end of a line. */
  lemma LastTokenLexed(t: Token)
    requires ValidToken(t) && t.ToTheEnd()
    ensures Classes(t.Text(), 0, Normal) == Same(t.Sort(), |t.Text()|)
    ensures Lex(t.Text(), 0, Normal).inBlock == t.OpenBlock?
  {
    match t
    case OpenLiteral(q, body) => OpenLiteralLexed(q, body);
    case OpenBlock(body) => OpenTokenLexed(body, true);
    case RestComment(body) => OpenTokenLexed(body, false);
  }

  /** One token in front of a line. */
  lemma TokenLexed(t: Token, rest: string, line: string)
    requires ValidToken(t) && !t.ToTheEnd() && line == t.Text() + rest
    requires t == Plain('/') && rest != "" ==> rest[0] != '/' && rest[0] != '*'
    ensures Classes(line, 0, Normal) == Same(t.Sort(), |line| - |rest|) + Classes(rest, 0, Normal)
    ensures Lex(line, 0, Normal).inBlock == Lex(rest, 0, Normal).inBlock
  {
    match t
    case Plain(c) => PlainLexed(c, rest);
    case Literal(q, body) => LiteralLexed(q, body, rest);
    case BlockComment(body) => BlockTokenLexed(body, rest);
  }

  lemma TextIsSomething(tokens: seq<Token>)
    ensures Text(tokens) == "" ==> tokens == []
  {
    if tokens != [] {
      assert |Text(tokens)| >= |tokens[0].Text()| > 0;
    }
  }

  lemma LastToken(tokens: seq<Token>)
    requires tokens != [] && Line(tokens) && tokens[0].ToTheEnd()
    ensures |tokens| == 1 && Text(tokens) == tokens[0].Text() && Sorts(tokens) == Same(tokens[0].Sort(), |Text(tokens)|)
  {
    TextIsSomething(tokens[1..]);
    assert tokens[0].Text() + "" == tokens[0].Text();
  }

  predicate EndsInBlock(tokens: seq<Token>) {
    tokens != [] && tokens[|tokens| - 1].OpenBlock?
  }

  /** The lexer finds the tokens of every line: comments are comment characters,
      literals are code whatever they hold, and every other visible character is code;
      and the line ends in a block comment exactly when its last token is open. */
  lemma {:induction false} TokensLexed(tokens: seq<Token>)
    requires Line(tokens)
    ensures Classes(Text(tokens), 0, Normal) == Sorts(tokens)
    ensures Lex(Text(tokens), 0, Normal).inBlock == EndsInBlock(tokens)
  {
    if tokens != [] {
      TokensLexed(tokens[1..]);
      if tokens[0].ToTheEnd() {
        LastToken(tokens);
        LastTokenLexed(tokens[0]);
      } else {
        TokenLexed(tokens[0], Text(tokens[1..]), Text(tokens));
      }
    }
  }

  /** A line that begins inside a block comment. */
  lemma TokensInBlockLexed(body: string, tokens: seq<Token>)
    requires NoClose(body) && Line(tokens)
    ensures Classes(body + "*/" + Text(tokens), 0, Block) == Same(Comment, |body| + 2) + Sorts(tokens)
    ensures Lex(body + "*/" + Text(tokens), 0, Block).inBlock == EndsInBlock(tokens)
  {
    BlockLexed(body, Text(tokens));
    TokensLexed(tokens);
  }

  // ----- every line has tokens

  lemma {:induction false} QuotableExtend(a: string, b: string, quote: char)
    requires Quotable(b, quote)
    requires (|a| == 1 && a[0] != quote && a[0] != '\\') || (|a| == 2 && a[0] == '\\')
    ensures Quotable(a + b, quote)
  {
    assert (a + b)[|a|..] == b;
  }

  lemma EscapingExtend(a: string, b: string, quote: char)
    requires EndsEscaping(b, quote)
    requires (|a| == 1 && a[0] != quote && a[0] != '\\') || (|a| == 2 && a[0] == '\\')
    ensures EndsEscaping(a + b, quote)
  {
    assert (a + b)[..|a + b| - 1] == a + b[..|b| - 1];
    QuotableExtend(a, b[..|b| - 1], quote);
  }

  /** The text behind an opening quote closes the literal, or does not. */
  lemma {:induction false} SplitLiteral(rest: string, quote: char) returns (body: string, tail: Option<string>)
    requires IsQuote(quote)
    ensures tail.Some? ==> Quotable(body, quote) && rest == body + [quote] + tail.value
    ensures tail.None? ==> body == rest && (Quotable(rest, quote) || EndsEscaping(rest, quote))
    decreases |rest|
  {
    if rest == "" {
      body, tail := "", None;
    } else if rest[0] == quote {
      body, tail := "", Some(rest[1..]);
    } else if rest == ['\\'] {
      body, tail := rest, None;
    } else {
      var n := if rest[0] == '\\' then 2 else 1;
      var more;
      more, tail := SplitLiteral(rest[n..], quote);
      body := rest[..n] + more;
      assert rest == rest[..n] + rest[n..];
      if Quotable(more, quote) {
        QuotableExtend(rest[..n], more, quote);
      } else {
        EscapingExtend(rest[..n], more, quote);
      }
    }
  }

  /** The text behind an opening comment delimiter closes the comment, or does not. */
  lemma {:induction false} SplitBlock(rest: string) returns (body: string, tail: Option<string>)
    ensures tail.Some? ==> NoClose(body) && rest == body + "*/" + tail.value
    ensures tail.None? ==> body == rest && forall k :: 0 <= k < |rest| ==> !ClosesAt(rest, k)
  {
    if rest == "" {
      body, tail := "", None;
    } else if ClosesAt(rest, 0) {
      body, tail := "", Some(rest[2..]);
    } else {
      var more;
      more, tail := SplitBlock(rest[1..]);
      body := [rest[0]] + more;
      assert rest == [rest[0]] + rest[1..];
      forall k | 0 <= k < |body|
        ensures tail.Some? ==> !ClosesAt(body + "*/", k)
        ensures tail.None? ==> !ClosesAt(rest, k)
      {
        SplitBlockAt(rest, more, tail, k);
      }
    }
  }

  lemma SplitBlockAt(rest: string, more: string, tail: Option<string>, k: nat)
    requires rest != "" && !ClosesAt(rest, 0) && k <= |more|
    requires tail.Some? ==> NoClose(more) && rest[1..] == more + "*/" + tail.value
    requires tail.None? ==> more == rest[1..] && forall k :: 0 <= k < |more| ==> !ClosesAt(more, k)
    ensures tail.Some? ==> !ClosesAt([rest[0]] + more + "*/", k)
    ensures tail.None? ==> !ClosesAt(rest, k)
  {
    if k > 0 {
      assert tail.Some? ==> !ClosesAt(more + "*/", k - 1);
      assert tail.None? ==> !ClosesAt(more, k - 1);
    }
  }

  lemma Prepend(t: Token, tokens: seq<Token>)
    requires ValidToken(t) && Line(tokens) && (t.ToTheEnd() ==> tokens == [])
    requires t == Plain('/') && Text(tokens) != "" ==> Text(tokens)[0] != '/' && Text(tokens)[0] != '*'
    ensures Line([t] + tokens) && Text([t] + tokens) == t.Text() + Text(tokens)
  {
    assert ([t] + tokens)[1..] == tokens;
  }

  /** The token that a line begins with, and the rest of the line. */
  lemma FirstToken(line: string) returns (t: Token, rest: string)
    requires line != ""
    ensures ValidToken(t) && line == t.Text() + rest && |rest| < |line|
    ensures t.ToTheEnd() ==> rest == ""
    ensures t == Plain('/') && rest != "" ==> rest[0] != '/' && rest[0] != '*'
  {
    if |line| >= 2 && line[0] == '/' && line[1] == '/' {
      t, rest := RestComment(line[2..]), "";
    } else if |line| >= 2 && line[0] == '/' && line[1] == '*' {
      var body, tail := SplitBlock(line[2..]);
      t := if tail.Some? then BlockComment(body) else OpenBlock(body);
      rest := if tail.Some? then tail.value else "";
    } else if IsQuote(line[0]) {
      var body, tail := SplitLiteral(line[1..], line[0]);
      t := if tail.Some? then Literal(line[0], body) else OpenLiteral(line[0], body);
      rest := if tail.Some? then tail.value else "";
    } else {
      t, rest := Plain(line[0]), line[1..];
    }
  }

  /** Every text is the text of a line of tokens. */
  lemma {:induction false} EveryLineHasTokens(line: string) returns (tokens: seq<Token>)
    ensures Line(tokens) && Text(tokens) == line
    decreases |line|
  {
    if line == "" {
      tokens := [];
    } else {
      var t, rest := FirstToken(line);
      var more := EveryLineHasTokens(rest);
      TextIsSomething(more);
      Prepend(t, more);
      tokens := [t] + more;
    }
  }

  // ----- what is counted

  /** Whether a token makes its line a line of code. */
  predicate IsCode(t: Token) {
    t.Literal? || t.OpenLiteral? || (t.Plain? && !IsSpace(t.c))
  }

  lemma InSame(x: CharClass, sort: CharClass, n: nat)
    ensures x in Same(sort, n) <==> n > 0 && x == sort
  {
    if n > 0 {
      assert Same(sort, n)[0] == sort;
    }
  }

  ghost predicate HasCode(tokens: seq<Token>) {
    exists i :: 0 <= i < |tokens| && IsCode(tokens[i])
  }

  ghost predicate HasComment(tokens: seq<Token>) {
    exists i :: 0 <= i < |tokens| && tokens[i].IsComment()
  }

  lemma {:induction false} SortsHave(tokens: seq<Token>)
    ensures Code in Sorts(tokens) <==> HasCode(tokens)
    ensures Comment in Sorts(tokens) <==> HasComment(tokens)
  {
    if tokens != [] {
      var t, rest := tokens[0], tokens[1..];
      SortsHave(rest);
      InSame(Code, t.Sort(), |t.Text()|);
      InSame(Comment, t.Sort(), |t.Text()|);
      assert forall i :: 0 <= i < |rest| ==> rest[i] == tokens[i + 1];
      assert forall i :: 1 <= i < |tokens| ==> tokens[i] == rest[i - 1];
    }
  }

  lemma LineSummary(tokens: seq<Token>)
    requires Line(tokens)
    ensures Lex(Text(tokens), 0, Normal) == Summary(HasCode(tokens), HasComment(tokens), EndsInBlock(tokens))
  {
    TokensLexed(tokens);
    SummaryOfClasses(Text(tokens), 0, Normal);
    SortsHave(tokens);
  }

  /** The kind of a line that begins outside comments: code if a token of it is a literal
      or a visible character, or else comment if one is a comment, or else blank; and
      the next line begins in a comment exactly when the last token is an open one. */
  lemma KindOfTokens(raw: string, tokens: seq<Token>)
    requires Line(tokens) && StripLineEnd(raw) == Text(tokens)
    ensures Classify(raw, false) ==
      Verdict(if HasCode(tokens) then CodeLine else if HasComment(tokens) then CommentLine else BlankLine,
              EndsInBlock(tokens))
  {
    LineSummary(tokens);
    BlankIff(raw, false);
    if AllSpace(Text(tokens)) {
      SpacesOnly(tokens);
    } else if EndsInBlock(tokens) {
      assert tokens[|tokens| - 1].IsComment();
    }
  }

  /** A line of white space has plain tokens only. */
  lemma {:induction false} SpacesOnly(tokens: seq<Token>)
    requires Line(tokens) && AllSpace(Text(tokens))
    ensures !HasCode(tokens) && !HasComment(tokens) && !EndsInBlock(tokens)
  {
    if tokens != [] {
      var t, rest := tokens[0], tokens[1..];
      assert Text(tokens)[0] == t.Text()[0];
      assert forall i :: 0 <= i < |Text(rest)| ==> Text(rest)[i] == Text(tokens)[|t.Text()| + i];
      SpacesOnly(rest);
    }
  }

  /** The kind of a line that begins in a block comment which it closes. */
  lemma KindAfterBlock(raw: string, body: string, tokens: seq<Token>)
    requires NoClose(body) && Line(tokens) && StripLineEnd(raw) == body + "*/" + Text(tokens)
    ensures Classify(raw, true) == Verdict(if HasCode(tokens) then CodeLine else CommentLine, EndsInBlock(tokens))
  {
    var line := StripLineEnd(raw);
    TokensInBlockLexed(body, tokens);
    SummaryOfClasses(line, 0, Block);
    SortsHave(tokens);
    InSame(Code, Comment, |body| + 2);
    InSame(Comment, Comment, |body| + 2);
  }

  /** And of one that it does not close. */
  lemma KindInBlock(raw: string)
    requires forall k :: 0 <= k < |StripLineEnd(raw)| ==> !ClosesAt(StripLineEnd(raw), k)
    ensures Classify(raw, true) == Verdict(CommentLine, true)
  {
    var line := StripLineEnd(raw);
    OpenBlockLexed(line);
    SummaryOfClasses(line, 0, Block);
    InSame(Code, Comment, |line|);
    InSame(Comment, Comment, |line|);
  }

  /** The line without its line ends. */
  lemma {:induction false} LineEndStripped(line: string, end: string)
    requires forall i :: 0 <= i < |end| ==> end[i] == '\n' || end[i] == '\r'
    requires line != "" ==> line[|line| - 1] != '\n' && line[|line| - 1] != '\r'
    ensures StripLineEnd(line + end) == line
  {
    if end == "" {
      assert line + end == line;
    } else {
      assert (line + end)[..|line + end| - 1] == line + end[..|end| - 1];
      LineEndStripped(line, end[..|end| - 1]);
    }
  }

  // ----- the counts

  /** The kinds of the lines of a C-like source. */
  function Kinds(lines: seq<string>, inBlock: bool): (kinds: seq<Kind>)
    ensures |kinds| == |lines|
  {
    if lines == [] then [] else
    var v := Classify(lines[0], inBlock);
    [v.kind] + Kinds(lines[1..], v.inBlock)
  }

  /** The kinds of the lines of a source with the other comment style. */
  function HashKinds(lines: seq<string>, prefix: string): (kinds: seq<Kind>)
    ensures |kinds| == |lines|
  {
    seq(|lines|, i requires 0 <= i < |lines| => HashKind(lines[i], prefix))
  }

  /** Every count is the number of lines of its kind. */
  ghost predicate CountsKinds(c: Counts, start: Counts, kinds: seq<Kind>) {
    && c.files == start.files
    && c.total == start.total + |kinds|
    && c.code == start.code + multiset(kinds)[CodeLine]
    && c.comment == start.comment + multiset(kinds)[CommentLine]
    && c.blank == start.blank + multiset(kinds)[BlankLine]
  }

  lemma TallyFirst(c: Counts, start: Counts, k: Kind, rest: seq<Kind>)
    requires CountsKinds(c, Tally(start, k), rest)
    ensures CountsKinds(c, start, [k] + rest)
  {
    assert multiset([k] + rest) == multiset{k} + multiset(rest);
  }

  lemma TallyLast(c: Counts, start: Counts, kinds: seq<Kind>, k: Kind)
    requires CountsKinds(c, start, kinds)
    ensures CountsKinds(Tally(c, k), start, kinds + [k])
  {
    assert multiset(kinds + [k]) == multiset(kinds) + multiset{k};
  }

  lemma FirstLineCounted(lines: seq<string>, start: Count, v: Verdict)
    requires lines != [] && v == Classify(lines[0], start.inBlock)
    ensures CountFrom(lines, start) == CountFrom(lines[1..], Count(Tally(start.counts, v.kind), v.inBlock))
  {
    assert lines == lines[..1] + lines[1..] && lines[..1][..0] == [];
    CountsCompose(lines[..1], lines[1..], start);
  }

  lemma {:induction false} CountsAreKinds(lines: seq<string>, start: Count)
    ensures CountsKinds(CountFrom(lines, start).counts, start.counts, Kinds(lines, start.inBlock))
  {
    if lines != [] {
      var v := Classify(lines[0], start.inBlock);
      var next := Count(Tally(start.counts, v.kind), v.inBlock);
      FirstLineCounted(lines, start, v);
      CountsAreKinds(lines[1..], next);
      TallyFirst(CountFrom(lines, start).counts, start.counts, v.kind, Kinds(lines[1..], v.inBlock));
    }
  }

  lemma HashKindsLast(lines: seq<string>, prefix: string, n: nat)
    requires |lines| == n + 1
    ensures HashKinds(lines, prefix) == HashKinds(lines[..n], prefix) + [HashKind(lines[n], prefix)]
    ensures HashCounts(lines, prefix) == Tally(HashCounts(lines[..n], prefix), HashKind(lines[n], prefix))
  {
  }

  lemma {:induction false} HashCountsAreKinds(lines: seq<string>, prefix: string)
    ensures CountsKinds(HashCounts(lines, prefix), ONE_FILE, HashKinds(lines, prefix))
  {
    if lines != [] {
      var n := |lines| - 1;
      HashCountsAreKinds(lines[..n], prefix);
      HashKindsLast(lines, prefix, n);
      TallyLast(HashCounts(lines[..n], prefix), ONE_FILE, HashKinds(lines[..n], prefix), HashKind(lines[n], prefix));
    }
  }

  // ----- the other comment style

  lemma {:induction false} StripRightIs(s: string)
    ensures StripRight(s) <= s && AllSpace(s[|StripRight(s)|..])
    ensures StripRight(s) != "" ==> !IsSpace(StripRight(s)[|StripRight(s)| - 1])
  {
    if s != "" && IsSpace(s[|s| - 1]) {
      StripRightIs(s[..|s| - 1]);
    }
  }

  lemma {:induction false} StripLeftIs(s: string) returns (n: nat)
    ensures n <= |s| && StripLeft(s) == s[n..] && AllSpace(s[..n])
    ensures n < |s| ==> !IsSpace(s[n])
  {
    if s != "" && IsSpace(s[0]) {
      var m := StripLeftIs(s[1..]);
      n := m + 1;
      assert s[..n] == [s[0]] + s[1..][..m];
    } else {
      n := 0;
    }
  }

  /** What is stripped is exactly the white space at both ends. */
  lemma StripIs(s: string) returns (n: nat, m: nat)
    ensures n <= m <= |s| && Strip(s) == s[n..m]
    ensures AllSpace(s[..n]) && AllSpace(s[m..])
    ensures n < m ==> !IsSpace(s[n]) && !IsSpace(s[m - 1])
    ensures n == m ==> AllSpace(s)
  {
    var r := StripRight(s);
    StripRightIs(s);
    m := |r|;
    n := StripLeftIs(r);
    assert s[..n] == r[..n] && s[n..m] == r[n..];
    if n == m {
      assert s == s[..n] + s[m..];
    }
  }

  /** A line is blank exactly when it is white space, and a comment exactly when its
      first visible character is the mark. */
  lemma HashKindIs(raw: string)
    ensures HashKind(raw, "#") == BlankLine <==> AllSpace(raw)
    ensures HashKind(raw, "#") == CommentLine <==> exists k :: 0 <= k < |raw| && raw[k] == '#' && AllSpace(raw[..k])
  {
    var n, m := StripIs(raw);
    if n < m {
      assert raw[n..m][0] == raw[n];
      assert !AllSpace(raw);
    }
    if k :| 0 <= k < |raw| && raw[k] == '#' && AllSpace(raw[..k]) {
      FirstVisible(raw, k, n, m);
    }
  }

  lemma FirstVisible(raw: string, k: nat, n: nat, m: nat)
    requires k < |raw| && !IsSpace(raw[k]) && AllSpace(raw[..k])
    requires n <= m <= |raw| && AllSpace(raw[..n]) && AllSpace(raw[m..]) && (n < m ==> !IsSpace(raw[n]))
    ensures n == m ==> !AllSpace(raw)
    ensures n < m ==> k == n
  {
    assert forall i :: 0 <= i < n ==> IsSpace(raw[..n][i]) && raw[..n][i] == raw[i];
    assert forall i :: 0 <= i < k ==> IsSpace(raw[..k][i]) && raw[..k][i] == raw[i];
  }

  /** Which counter a language goes to: C and C++ and the other code to the scanner, the
      rest to the counter of lines that begin with a number sign. */
  lemma FileCountsAreKinds(file: SourceFile)
    ensures var kinds := if file.language in {CMake, Script, PowerShell} then HashKinds(file.lines, "#")
                         else Kinds(file.lines, false);
            CountsKinds(FileCounts(file), Counts(1, 0, 0, 0, 0), kinds)
  {
    CountsAreKinds(file.lines, Count(ONE_FILE, false));
    HashCountsAreKinds(file.lines, "#");
  }
}
