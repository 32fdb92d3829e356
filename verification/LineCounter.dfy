/** Counting code, comment and blank lines. For C-like sources: the hand-written
    scanner with its `find` jumps, and the character-by-character lexer it agrees
    with. For the others: the counter of lines that begin with a comment mark. */
module LineCounter {
  import opened PyText
  import opened Wrappers

  /** The line without its trailing line ends. */
  function StripLineEnd(s: string): string {
    if s != [] && (s[|s| - 1] == '\n' || s[|s| - 1] == '\r') then StripLineEnd(s[..|s| - 1]) else s
  }

  // ----- the reference lexer

  datatype CharClass = Code | Comment | Space

  /** `Opening` and `Closing` wait for the second character of a delimiter. */
  datatype LexState = Normal | Opening | Block | Closing | LineComment | Quoted(quote: char) | Escaped(quote: char)

  datatype Lexed = Lexed(sort: CharClass, state: LexState)

  /** One character, with the next one for lookahead. */
  function LexChar(s: LexState, c: char, next: Option<char>): Lexed {
    match s
    case Normal =>
      if c == '/' && next == Some('/') then Lexed(Comment, LineComment)
      else if c == '/' && next == Some('*') then Lexed(Comment, Opening)
      else if c == '"' || c == '\'' then Lexed(Code, Quoted(c))
      else Lexed(if IsSpace(c) then Space else Code, Normal)
    case Opening => Lexed(Comment, Block)
    case Block => Lexed(Comment, if c == '*' && next == Some('/') then Closing else Block)
    case Closing => Lexed(Comment, Normal)
    case LineComment => Lexed(Comment, LineComment)
    case Quoted(q) => Lexed(Code, if c == '\\' then Escaped(q) else if c == q then Normal else Quoted(q))
    case Escaped(q) => Lexed(Code, Quoted(q))
  }

  function Next(line: string, i: nat): Option<char> {
    if i + 1 < |line| then Some(line[i + 1]) else None
  }

  /** The class of every character from position `i` on. */
  function Classes(line: string, i: nat, s: LexState): (classes: seq<CharClass>)
    requires i <= |line|
    ensures |classes| == |line| - i
    decreases |line| - i
  {
    if i == |line| then [] else
    var l := LexChar(s, line[i], Next(line, i));
    [l.sort] + Classes(line, i + 1, l.state)
  }

  /** What a line amounts to from position `i` on. */
  datatype Summary = Summary(code: bool, comment: bool, inBlock: bool)

  function Lex(line: string, i: nat, s: LexState): Summary
    decreases |line| - i
  {
    if i >= |line| then Summary(false, false, s == Block) else
    var l := LexChar(s, line[i], Next(line, i));
    var r := Lex(line, i + 1, l.state);
    Summary(r.code || l.sort == Code, r.comment || l.sort == Comment, r.inBlock)
  }

  lemma {:induction false} SummaryOfClasses(line: string, i: nat, s: LexState)
    requires i <= |line|
    ensures Lex(line, i, s).code <==> Code in Classes(line, i, s)
    ensures Lex(line, i, s).comment <==> Comment in Classes(line, i, s)
    decreases |line| - i
  {
    if i < |line| {
      SummaryOfClasses(line, i + 1, LexChar(s, line[i], Next(line, i)).state);
    }
  }

  function StartState(inBlock: bool): LexState {
    if inBlock then Block else Normal
  }

  /** Character `i + k` is visible and outside every comment. */
  ghost predicate VisibleCode(line: string, i: nat, s: LexState, k: int)
    requires i <= |line|
  {
    0 <= k < |line| - i && !IsSpace(line[i + k]) && Classes(line, i, s)[k] != Comment
  }

  lemma VisibleHere(line: string, i: nat, s: LexState)
    requires i < |line|
    ensures VisibleCode(line, i, s, 0) <==>
              !IsSpace(line[i]) && LexChar(s, line[i], Next(line, i)).sort != Comment
  {
  }

  lemma VisibleShift(line: string, i: nat, s: LexState, k: nat)
    requires i < |line|
    ensures VisibleCode(line, i, s, k + 1) <==>
              VisibleCode(line, i + 1, LexChar(s, line[i], Next(line, i)).state, k)
  {
  }

  /** A line has code exactly when a visible character of it is outside every
      comment. */
  lemma {:induction false} CodeIsVisible(line: string, i: nat, s: LexState)
    requires i <= |line| && !s.Quoted? && !s.Escaped?
    ensures Lex(line, i, s).code <==> exists k :: VisibleCode(line, i, s, k)
    decreases |line| - i
  {
    if i < |line| {
      var l := LexChar(s, line[i], Next(line, i));
      VisibleHere(line, i, s);
      if l.sort != Code {
        CodeIsVisible(line, i + 1, l.state);
        CodeIsLater(line, i, s, i + 1, l.state);
      }
    }
  }

  lemma CodeIsLater(line: string, i: nat, s: LexState, n: nat, t: LexState)
    requires i < |line| && !VisibleCode(line, i, s, 0)
    requires n == i + 1 && t == LexChar(s, line[i], Next(line, i)).state
    ensures (exists k :: VisibleCode(line, i, s, k)) <==> exists k :: VisibleCode(line, n, t, k)
  {
    if k :| VisibleCode(line, i, s, k) {
      VisibleShift(line, i, s, k - 1);
    }
    if k :| VisibleCode(line, n, t, k) {
      VisibleShift(line, i, s, k);
    }
  }

  // ----- the scanner's jumps

  predicate ClosesAt(line: string, i: nat) {
    i + 1 < |line| && line[i] == '*' && line[i + 1] == '/'
  }

  // The position of the next closing delimiter, `None` for the source's -1.
  method FindClose(line: string, start: nat) returns (r: Option<nat>)
    ensures r.None? ==> forall k :: k >= start ==> !ClosesAt(line, k)
    ensures r.Some? ==> start <= r.value && ClosesAt(line, r.value)
    ensures r.Some? ==> forall k :: start <= k < r.value ==> !ClosesAt(line, k)
  {
    var i := start;
    while i < |line|
      invariant start <= i
      invariant forall k :: start <= k < i ==> !ClosesAt(line, k)
    {
      if i + 1 < |line| && line[i] == '*' && line[i + 1] == '/' {
        return Some(i);
      }
      i := i + 1;
    }
    r := None;
  }

  /** Inside a block comment the lexer reads comment characters up to the first
      closing delimiter. */
  lemma {:induction false} BlockJump(line: string, i: nat, close: nat)
    requires i <= close && ClosesAt(line, close) && forall k :: i <= k < close ==> !ClosesAt(line, k)
    ensures Lex(line, i, Block) == Lex(line, close + 2, Normal).(comment := true)
    decreases close - i
  {
    if i < close {
      assert !ClosesAt(line, i);
      BlockJump(line, i + 1, close);
    } else {
      assert Lex(line, i + 1, Closing) == Lex(line, i + 2, Normal).(comment := true);
    }
  }

  lemma {:induction false} BlockToEnd(line: string, i: nat)
    requires forall k :: k >= i ==> !ClosesAt(line, k)
    ensures Lex(line, i, Block) == Summary(false, i < |line|, true)
    decreases |line| - i
  {
    if i < |line| {
      assert !ClosesAt(line, i);
      BlockToEnd(line, i + 1);
    }
  }

  lemma {:induction false} LineCommentToEnd(line: string, i: nat)
    ensures Lex(line, i, LineComment) == Summary(false, i < |line|, false)
    decreases |line| - i
  {
    if i < |line| {
      LineCommentToEnd(line, i + 1);
    }
  }

  /** Merges what has been seen with what is still to come. */
  function Merge(code: bool, comment: bool, rest: Summary): Summary {
    Summary(code || rest.code, comment || rest.comment, rest.inBlock)
  }

  /** The scanner's loop on one line. It agrees with the lexer. */
  method ScanLine(line: string, startInBlock: bool) returns (r: Summary)
    ensures r == Lex(line, 0, StartState(startInBlock))
  {
    var inBlock, hasCode, hasComment := startInBlock, false, false;
    var i: nat := 0;
    while i < |line|
      invariant Merge(hasCode, hasComment, Lex(line, i, StartState(inBlock))) == Lex(line, 0, StartState(startInBlock))
      decreases |line| - i
    {
      if inBlock {
        hasComment := true;
        var end := FindClose(line, i);
        if end.None? {
          BlockToEnd(line, i);
          i := |line|;
          break;
        }
        BlockJump(line, i, end.value);
        inBlock := false;
        i := end.value + 2;
        continue;
      }
      if line[i] == '/' && i + 1 < |line| && line[i + 1] == '/' {
        LineCommentToEnd(line, i + 1);
        hasComment := true;
        return Summary(hasCode, hasComment, false);
      }
      if line[i] == '/' && i + 1 < |line| && line[i + 1] == '*' {
        assert Lex(line, i + 1, Opening) == Lex(line, i + 2, Block).(comment := true);
        hasComment := true;
        inBlock := true;
        i := i + 2;
        continue;
      }
      var ch := line[i];
      if ch == '"' || ch == '\'' {
        hasCode := true;
        i := SkipQuoted(line, i + 1, ch);
        continue;
      }
      if !IsSpace(ch) {
        hasCode := true;
      }
      i := i + 1;
    }
    r := Summary(hasCode, hasComment, inBlock);
  }

  /** Skips a quoted literal; an unterminated one ends with the line. */
  method SkipQuoted(line: string, from: nat, quote: char) returns (i: nat)
    requires quote == '"' || quote == '\''
    requires from <= |line|
    ensures i >= from
    ensures Lex(line, from, Quoted(quote)) == Lex(line, i, Normal).(code := Lex(line, i, Normal).code || from < |line|)
  {
    i := from;
    while i < |line|
      invariant from <= i
      invariant Lex(line, from, Quoted(quote)) == Merge(from < i && from < |line|, false, Lex(line, i, Quoted(quote)))
      decreases |line| - i
    {
      if line[i] == '\\' {
        EscapeStep(line, i, quote);
        i := i + 2;
      } else if line[i] == quote {
        i := i + 1;
        return;
      } else {
        i := i + 1;
      }
    }
  }

  lemma EscapeStep(line: string, i: nat, quote: char)
    requires i < |line| && line[i] == '\\' && (quote == '"' || quote == '\'')
    ensures Lex(line, i, Quoted(quote)) == Lex(line, i + 2, Quoted(quote)).(code := true)
  {
    assert LexChar(Quoted(quote), line[i], Next(line, i)) == Lexed(Code, Escaped(quote));
    if i + 1 < |line| {
      assert LexChar(Escaped(quote), line[i + 1], Next(line, i + 1)) == Lexed(Code, Quoted(quote));
    }
  }

  // ----- counting

  datatype Kind = CodeLine | CommentLine | BlankLine

  datatype Counts = Counts(files: nat, total: nat, code: nat, comment: nat, blank: nat) {
    function Plus(other: Counts): Counts {
      Counts(files + other.files, total + other.total, code + other.code, comment + other.comment, blank + other.blank)
    }

    predicate Balanced() {
      total == code + comment + blank
    }
  }

  /** The kind of a line, and whether the next one begins in a block comment. */
  datatype Verdict = Verdict(kind: Kind, inBlock: bool)

  function Classify(raw: string, inBlock: bool): Verdict {
    var line := StripLineEnd(raw);
    if AllSpace(line) && !inBlock then Verdict(BlankLine, inBlock) else
    var s := Lex(line, 0, StartState(inBlock));
    Verdict(if s.code then CodeLine else if s.comment || s.inBlock then CommentLine else BlankLine, s.inBlock)
  }

  function Tally(c: Counts, k: Kind): Counts {
    match k
    case CodeLine => c.(total := c.total + 1, code := c.code + 1)
    case CommentLine => c.(total := c.total + 1, comment := c.comment + 1)
    case BlankLine => c.(total := c.total + 1, blank := c.blank + 1)
  }

  datatype Count = Count(counts: Counts, inBlock: bool)

  /** The counts after these lines, the first beginning with `inBlock`. */
  function CountFrom(lines: seq<string>, start: Count): Count {
    if lines == [] then start else
    var before := CountFrom(lines[..|lines| - 1], start);
    var v := Classify(lines[|lines| - 1], before.inBlock);
    Count(Tally(before.counts, v.kind), v.inBlock)
  }

  const ONE_FILE := Counts(1, 0, 0, 0, 0)

  class Stats {
    var files: nat
    var total: nat
    var code: nat
    var comment: nat
    var blank: nat

    ghost function Snapshot(): Counts
      reads this
    {
      Counts(files, total, code, comment, blank)
    }

    constructor (files: nat)
      ensures Snapshot() == Counts(files, 0, 0, 0, 0)
    {
      this.files := files;
      total, code, comment, blank := 0, 0, 0, 0;
    }

    method Add(other: Stats)
      modifies this
      ensures Snapshot() == old(Snapshot()).Plus(old(other.Snapshot()))
    {
      files := files + other.files;
      total := total + other.total;
      code := code + other.code;
      comment := comment + other.comment;
      blank := blank + other.blank;
    }
  }

  method CountCLikeLines(lines: seq<string>) returns (stats: Stats)
    ensures fresh(stats)
    ensures stats.Snapshot() == CountFrom(lines, Count(ONE_FILE, false)).counts
  {
    stats := new Stats(1);
    var inBlock := false;
    for n := 0 to |lines|
      invariant fresh(stats)
      invariant CountFrom(lines[..n], Count(ONE_FILE, false)) == Count(stats.Snapshot(), inBlock)
    {
      assert lines[..n + 1][..n] == lines[..n];
      stats.total := stats.total + 1;
      var line := StripLineEnd(lines[n]);
      if AllSpace(line) && !inBlock {
        stats.blank := stats.blank + 1;
        continue;
      }
      var s := ScanLine(line, inBlock);
      inBlock := s.inBlock;
      if s.code {
        stats.code := stats.code + 1;
      } else if s.comment || s.inBlock {
        stats.comment := stats.comment + 1;
      } else {
        stats.blank := stats.blank + 1;
      }
    }
    assert lines[..|lines|] == lines;
  }

  // ----- laws

  lemma {:induction false} VisibleIsSeen(line: string, i: nat, s: LexState, k: nat)
    requires i <= k < |line| && !IsSpace(line[k])
    ensures Lex(line, i, s).code || Lex(line, i, s).comment
    decreases |line| - i
  {
    if i < k {
      VisibleIsSeen(line, i + 1, LexChar(s, line[i], Next(line, i)).state, k);
    }
  }

  lemma BlockLineIsComment(line: string)
    ensures Lex(line, 0, Block).comment || Lex(line, 0, Block).inBlock
  {
  }

  /** A line is blank exactly when it is whitespace only and begins outside a
      block comment: the scanner's last resort is never reached. */
  lemma BlankIff(raw: string, inBlock: bool)
    ensures Classify(raw, inBlock).kind == BlankLine <==> AllSpace(StripLineEnd(raw)) && !inBlock
  {
    var line := StripLineEnd(raw);
    if inBlock {
      BlockLineIsComment(line);
    } else if !AllSpace(line) {
      var k :| 0 <= k < |line| && !IsSpace(line[k]);
      VisibleIsSeen(line, 0, Normal, k);
    }
  }

  /** Every line is counted once. */
  lemma {:induction false} EveryLineCountedOnce(lines: seq<string>, start: Count)
    ensures var c := CountFrom(lines, start).counts;
            && c.total == start.counts.total + |lines|
            && c.files == start.counts.files
            && c.total - start.counts.total
            == (c.code - start.counts.code) + (c.comment - start.counts.comment) + (c.blank - start.counts.blank)
  {
    if lines != [] {
      EveryLineCountedOnce(lines[..|lines| - 1], start);
    }
  }

  /** Counting two parts one after the other, carrying the comment state over,
      is counting the whole. */
  lemma {:induction false} CountsCompose(a: seq<string>, b: seq<string>, start: Count)
    ensures CountFrom(a + b, start) == CountFrom(b, CountFrom(a, start))
  {
    if b == [] {
      assert a + b == a;
    } else {
      assert (a + b)[..|a + b| - 1] == a + b[..|b| - 1];
      CountsCompose(a, b[..|b| - 1], start);
    }
  }

  // ----- the other comment style, and all files

  /** The kind of a line whose comments begin with `prefix` and end with it. */
  function HashKind(raw: string, prefix: string): Kind {
    var stripped := Strip(raw);
    if stripped == "" then BlankLine else if prefix <= stripped then CommentLine else CodeLine
  }

  function HashCounts(lines: seq<string>, prefix: string): Counts {
    if lines == [] then ONE_FILE
    else Tally(HashCounts(lines[..|lines| - 1], prefix), HashKind(lines[|lines| - 1], prefix))
  }

  method CountHashCommentLines(lines: seq<string>, prefix: string) returns (stats: Stats)
    ensures fresh(stats) && stats.Snapshot() == HashCounts(lines, prefix)
  {
    stats := new Stats(1);
    for n := 0 to |lines|
      invariant fresh(stats) && stats.Snapshot() == HashCounts(lines[..n], prefix)
    {
      assert lines[..n + 1][..n] == lines[..n];
      stats.total := stats.total + 1;
      var stripped := Strip(lines[n]);
      if stripped == "" {
        stats.blank := stats.blank + 1;
      } else if prefix <= stripped {
        stats.comment := stats.comment + 1;
      } else {
        stats.code := stats.code + 1;
      }
    }
    assert lines[..|lines|] == lines;
  }

  lemma TallyOne(c: Counts, k: Kind)
    ensures Tally(c, k).total == c.total + 1 && Tally(c, k).files == c.files
    ensures c.Balanced() ==> Tally(c, k).Balanced()
  {
  }

  /** One file whose lines are counted once each, as exactly one kind. */
  ghost predicate CountedOnce(c: Counts, lines: nat) {
    c.Balanced() && c.total == lines && c.files == 1
  }

  lemma {:induction false} HashLinesCountedOnce(lines: seq<string>, prefix: string)
    ensures CountedOnce(HashCounts(lines, prefix), |lines|)
  {
    if lines != [] {
      var n := |lines| - 1;
      HashLinesCountedOnce(lines[..n], prefix);
      TallyOne(HashCounts(lines[..n], prefix), HashKind(lines[n], prefix));
    }
  }

  /** In this style the kind of a line does not depend on the lines before it, so
      counting is adding up. */
  lemma {:induction false} HashCountsAdd(a: seq<string>, b: seq<string>, prefix: string)
    ensures HashCounts(a + b, prefix).Plus(ONE_FILE) == HashCounts(a, prefix).Plus(HashCounts(b, prefix))
  {
    if b == [] {
      assert a + b == a;
    } else {
      var n := |b| - 1;
      assert (a + b)[..|a + b| - 1] == a + b[..n];
      HashCountsAdd(a, b[..n], prefix);
    }
  }

  datatype Language = CMake | Cpp | Script | PowerShell | OtherCode

  datatype SourceFile = SourceFile(language: Language, lines: seq<string>)

  function FileCounts(file: SourceFile): Counts {
    match file.language
    case Cpp | OtherCode => CountFrom(file.lines, Count(ONE_FILE, false)).counts
    case CMake | Script | PowerShell => HashCounts(file.lines, "#")
  }

  lemma FileCountedOnce(file: SourceFile)
    ensures CountedOnce(FileCounts(file), |file.lines|)
  {
    if file.language == Cpp || file.language == OtherCode {
      EveryLineCountedOnce(file.lines, Count(ONE_FILE, false));
    } else {
      HashLinesCountedOnce(file.lines, "#");
    }
  }

  method CountFile(file: SourceFile) returns (stats: Stats)
    ensures fresh(stats) && stats.Snapshot() == FileCounts(file)
  {
    if file.language == Cpp || file.language == OtherCode {
      stats := CountCLikeLines(file.lines);
    } else {
      stats := CountHashCommentLines(file.lines, "#");
    }
  }

  /** The counts of all files together. */
  function CountAll(files: seq<SourceFile>): Counts {
    if files == [] then Counts(0, 0, 0, 0, 0)
    else CountAll(files[..|files| - 1]).Plus(FileCounts(files[|files| - 1]))
  }

  function LinesIn(files: seq<SourceFile>): nat {
    if files == [] then 0 else LinesIn(files[..|files| - 1]) + |files[|files| - 1].lines|
  }

  method CountFiles(files: seq<SourceFile>) returns (all: Stats)
    ensures fresh(all) && all.Snapshot() == CountAll(files)
  {
    all := new Stats(0);
    for n := 0 to |files|
      invariant fresh(all) && all.Snapshot() == CountAll(files[..n])
    {
      assert files[..n + 1][..n] == files[..n];
      var stat := CountFile(files[n]);
      all.Add(stat);
    }
    assert files[..|files|] == files;
  }

  /** Over all files of all languages, every line is counted once, as exactly one
      kind. */
  lemma {:induction false} AllLinesCountedOnce(files: seq<SourceFile>)
    ensures CountAll(files).Balanced()
    ensures CountAll(files).total == LinesIn(files) && CountAll(files).files == |files|
  {
    if files != [] {
      AllLinesCountedOnce(files[..|files| - 1]);
      FileCountedOnce(files[|files| - 1]);
    }
  }

  /** The counts do not matter for what comes after, only the comment state. */
  lemma {:induction false} CountsShift(lines: seq<string>, start: Count, more: Counts)
    ensures CountFrom(lines, Count(start.counts.Plus(more), start.inBlock)).counts
         == CountFrom(lines, start).counts.Plus(more)
    ensures CountFrom(lines, Count(start.counts.Plus(more), start.inBlock)).inBlock == CountFrom(lines, start).inBlock
  {
    if lines != [] {
      CountsShift(lines[..|lines| - 1], start, more);
    }
  }

  /** The kind of every line: code exactly when a visible character is outside
      every comment, blank exactly when it is whitespace outside a block comment,
      and comment otherwise. */
  lemma KindOfLine(raw: string, inBlock: bool)
    ensures var line := StripLineEnd(raw);
            var kind := Classify(raw, inBlock).kind;
            && (kind == CodeLine <==> exists k :: VisibleCode(line, 0, StartState(inBlock), k))
            && (kind == BlankLine <==> AllSpace(line) && !inBlock)
  {
    var line := StripLineEnd(raw);
    BlankIff(raw, inBlock);
    CodeIsVisible(line, 0, StartState(inBlock));
    if exists k :: VisibleCode(line, 0, StartState(inBlock), k) {
      var k :| VisibleCode(line, 0, StartState(inBlock), k);
      assert !AllSpace(line) by {
        assert !IsSpace(line[0 + k]);
      }
    }
  }
}
