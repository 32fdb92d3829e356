/** Codepoint range files: maximal runs printed as hexadecimal text, and the two
    independent readers of that text. */
module CodeRanges {
  import opened PyText
  import opened Wrappers

  datatype Span = Span(start: int, end: int) {
    predicate Covers(code: int) {
      start <= code <= end
    }
  }

  // ----- runs

  /** One more code extends the last span, if it continues it, or begins another. */
  function AddCode(spans: seq<Span>, code: int): (r: seq<Span>)
    ensures r != [] && r[|r| - 1].end == code
  {
    var last := |spans| - 1;
    if spans != [] && code == spans[last].end + 1 then spans[..last] + [Span(spans[last].start, code)]
    else spans + [Span(code, code)]
  }

  /** The maximal runs of consecutive codes, in the order of the list. */
  function Runs(codes: seq<nat>): (spans: seq<Span>)
    ensures codes != [] ==> spans != []
    ensures forall i :: 0 <= i < |spans| ==> 0 <= spans[i].start <= spans[i].end
  {
    if codes == [] then [] else AddCode(Runs(codes[..|codes| - 1]), codes[|codes| - 1])
  }

  /** The codes from `start` to `end`, in order. */
  function Codes(start: int, end: int): (codes: seq<int>)
    ensures |codes| == if start <= end then end - start + 1 else 0
  {
    seq(if start <= end then end - start + 1 else 0, i requires 0 <= i => start + i)
  }

  function CodeSet(codes: seq<int>): set<int> {
    set c | c in codes
  }

  /** The codes of a list of spans, in order. */
  function Expand(spans: seq<Span>): seq<int> {
    if spans == [] then []
    else Expand(spans[..|spans| - 1]) + Codes(spans[|spans| - 1].start, spans[|spans| - 1].end)
  }

  /** Every span is non-empty and none continues the one before it. */
  ghost predicate Maximal(spans: seq<Span>) {
    && (forall i :: 0 <= i < |spans| ==> spans[i].start <= spans[i].end)
    && (forall i, j :: 0 <= i && i + 1 == j < |spans| ==> spans[j].start != spans[i].end + 1)
  }

  lemma ExpandAppend(spans: seq<Span>, s: Span)
    ensures Expand(spans + [s]) == Expand(spans) + Codes(s.start, s.end)
  {
    assert (spans + [s])[..|spans|] == spans;
  }

  lemma ExtendRun(init: seq<Span>, last: Span)
    requires Maximal(init + [last])
    ensures Expand(init + [Span(last.start, last.end + 1)]) == Expand(init + [last]) + [last.end + 1]
  {
    assert (init + [last])[|init|] == last;
    ExpandAppend(init, last);
    ExpandAppend(init, Span(last.start, last.end + 1));
    assert Codes(last.start, last.end + 1) == Codes(last.start, last.end) + [last.end + 1];
  }

  lemma ExtendMaximal(init: seq<Span>, last: Span)
    requires Maximal(init + [last])
    ensures Maximal(init + [Span(last.start, last.end + 1)])
  {
    var was, now := init + [last], init + [Span(last.start, last.end + 1)];
    assert was[|init|] == last;
    assert forall i :: 0 <= i < |init| ==> now[i] == was[i];
  }

  lemma BeginRun(spans: seq<Span>, code: int)
    ensures Expand(spans + [Span(code, code)]) == Expand(spans) + [code]
  {
    ExpandAppend(spans, Span(code, code));
    assert Codes(code, code) == [code];
  }

  lemma BeginMaximal(spans: seq<Span>, code: int)
    requires Maximal(spans) && (spans != [] ==> code != spans[|spans| - 1].end + 1)
    ensures Maximal(spans + [Span(code, code)])
  {
    var now := spans + [Span(code, code)];
    assert forall i :: 0 <= i < |spans| ==> now[i] == spans[i];
    assert now[|spans|] == Span(code, code);
  }

  lemma AddCodeExpands(spans: seq<Span>, code: int)
    requires Maximal(spans)
    ensures Expand(AddCode(spans, code)) == Expand(spans) + [code]
  {
    if spans != [] && code == spans[|spans| - 1].end + 1 {
      var init, last := spans[..|spans| - 1], spans[|spans| - 1];
      assert spans == init + [last];
      ExtendRun(init, last);
    } else {
      BeginRun(spans, code);
    }
  }

  lemma AddCodeMaximal(spans: seq<Span>, code: int)
    requires Maximal(spans)
    ensures Maximal(AddCode(spans, code))
  {
    if spans != [] && code == spans[|spans| - 1].end + 1 {
      var init, last := spans[..|spans| - 1], spans[|spans| - 1];
      assert spans == init + [last];
      ExtendMaximal(init, last);
    } else {
      BeginMaximal(spans, code);
    }
  }

  /** For every list of codes, in any order and with repetitions, the runs are
      maximal and spell out exactly the list. */
  lemma {:induction false} RunsSpellCodes(codes: seq<nat>)
    ensures Maximal(Runs(codes)) && Expand(Runs(codes)) == codes
  {
    if codes != [] {
      var init, code := codes[..|codes| - 1], codes[|codes| - 1];
      assert codes == init + [code];
      RunsSpellCodes(init);
      AddCodeExpands(Runs(init), code);
      AddCodeMaximal(Runs(init), code);
    }
  }

  ghost predicate Increasing(codes: seq<int>) {
    forall i, j :: 0 <= i < j < |codes| ==> codes[i] < codes[j]
  }

  lemma {:induction false} ExpandCovers(spans: seq<Span>, code: int)
    ensures code in Expand(spans) <==> exists i :: 0 <= i < |spans| && spans[i].Covers(code)
  {
    if spans != [] {
      var n := |spans| - 1;
      var s := spans[n];
      ExpandCovers(spans[..n], code);
      assert s.Covers(code) ==> Codes(s.start, s.end)[code - s.start] == code;
    }
  }

  lemma LastStartsAfter(spans: seq<Span>, code: int)
    requires Maximal(spans) && spans != [] && Increasing(Expand(spans))
    requires code in Expand(spans[..|spans| - 1])
    ensures code < spans[|spans| - 1].start
  {
    var before, last := Expand(spans[..|spans| - 1]), spans[|spans| - 1];
    var i :| 0 <= i < |before| && before[i] == code;
    assert Codes(last.start, last.end)[0] == last.start;
    assert Expand(spans)[i] == code && Expand(spans)[|before|] == last.start;
  }

  /** For a strictly increasing list the spans are disjoint, in order and not
      adjacent. */
  lemma {:induction false} IncreasingRunsAreApart(spans: seq<Span>, i: nat, j: nat)
    requires Maximal(spans) && Increasing(Expand(spans)) && i < j < |spans|
    ensures spans[i].end + 1 < spans[j].start
    decreases |spans|
  {
    var n := |spans| - 1;
    var init := spans[..n];
    InitIsApart(spans);
    if j < n {
      IncreasingRunsAreApart(init, i, j);
    } else {
      EndsBefore(spans, i);
      if i < n - 1 {
        EndsBefore(spans, n - 1);
        IncreasingRunsAreApart(init, i, n - 1);
      }
    }
  }

  lemma MaximalInit(spans: seq<Span>)
    requires Maximal(spans) && spans != []
    ensures Maximal(spans[..|spans| - 1])
  {
    var init := spans[..|spans| - 1];
    assert forall i :: 0 <= i < |init| ==> init[i] == spans[i];
  }

  lemma IncreasingPrefix(a: seq<int>, b: seq<int>)
    requires Increasing(a + b)
    ensures Increasing(a)
  {
    assert forall i :: 0 <= i < |a| ==> (a + b)[i] == a[i];
  }

  lemma InitIsApart(spans: seq<Span>)
    requires Maximal(spans) && spans != [] && Increasing(Expand(spans))
    ensures Maximal(spans[..|spans| - 1]) && Increasing(Expand(spans[..|spans| - 1]))
  {
    var last := spans[|spans| - 1];
    MaximalInit(spans);
    IncreasingPrefix(Expand(spans[..|spans| - 1]), Codes(last.start, last.end));
  }

  lemma EndsBefore(spans: seq<Span>, i: nat)
    requires Maximal(spans) && Increasing(Expand(spans)) && i < |spans| - 1
    ensures spans[i].end < spans[|spans| - 1].start
  {
    var init := spans[..|spans| - 1];
    assert init[i].Covers(spans[i].end);
    ExpandCovers(init, spans[i].end);
    LastStartsAfter(spans, spans[i].end);
  }

  // ----- the printer

  function Hex(n: int): string {
    "0x" + ToHex(if n >= 0 then n else 0)
  }

  function SpanText(s: Span): string {
    if s.start == s.end then Hex(s.start) else Hex(s.start) + "-" + Hex(s.end)
  }

  function SpanTexts(spans: seq<Span>): (texts: seq<string>)
    ensures |texts| == |spans|
  {
    seq(|spans|, i requires 0 <= i < |spans| => SpanText(spans[i]))
  }

  /** The text of a range file. */
  function RangesText(codes: seq<nat>): string {
    Join(SpanTexts(Runs(codes)), ',') + (if codes == [] then "" else "\n")
  }

  method WriteRanges(codes: seq<nat>) returns (text: string)
    ensures text == RangesText(codes)
  {
    var ranges: seq<string> := [];
    if codes != [] {
      var start, prev := codes[0], codes[0];
      ghost var closed: seq<Span> := [];
      assert codes[..1] == [codes[0]];
      for i := 1 to |codes|
        invariant Runs(codes[..i]) == closed + [Span(start, prev)]
        invariant ranges == SpanTexts(closed)
      {
        var code := codes[i];
        assert codes[..i + 1][..i] == codes[..i];
        AddCodeToOpen(closed, Span(start, prev), code);
        if code == prev + 1 {
          prev := code;
          continue;
        }
        CloseSpan(closed, Span(start, prev));
        closed := closed + [Span(start, prev)];
        ranges := ranges + [if start == prev then Hex(start) else Hex(start) + "-" + Hex(prev)];
        start, prev := code, code;
      }
      assert codes[..|codes|] == codes;
      CloseSpan(closed, Span(start, prev));
      ranges := ranges + [if start == prev then Hex(start) else Hex(start) + "-" + Hex(prev)];
    }
    text := Join(ranges, ',') + (if ranges == [] then "" else "\n");
  }

  lemma AddCodeToOpen(closed: seq<Span>, open: Span, code: int)
    ensures AddCode(closed + [open], code)
         == if code == open.end + 1 then closed + [Span(open.start, code)] else closed + [open] + [Span(code, code)]
  {
    assert (closed + [open])[|closed|] == open;
    assert (closed + [open])[..|closed|] == closed;
  }

  lemma CloseSpan(closed: seq<Span>, open: Span)
    ensures SpanTexts(closed + [open]) == SpanTexts(closed) + [SpanText(open)]
  {
  }

  // ----- the two readers

  datatype RangeError = BadNumber(item: string) | InvalidRange(item: string)

  /** `item.split("-", 1)` and the two numbers, or the one number. */
  function ParseItem(item: string, base: nat): Result<Span, RangeError> {
    var dash := Find(item, '-');
    if dash < |item| then
      match ParseInt(item[..dash], base)
      case None => Err(BadNumber(item))
      case Some(start) =>
        match ParseInt(item[dash + 1..], base)
        case None => Err(BadNumber(item))
        case Some(end) => Ok(Span(start, end))
    else
      match ParseInt(item, base)
      case None => Err(BadNumber(item))
      case Some(n) => Ok(Span(n, n))
  }

  /** The spans of the items, leaving out empty ones; the first bad item is the
      error. */
  function ReadItems(items: seq<string>, base: nat): Result<seq<Span>, RangeError> {
    if items == [] then Ok([]) else
    match ReadItems(items[..|items| - 1], base)
    case Err(e) => Err(e)
    case Ok(spans) =>
      var item := Strip(items[|items| - 1]);
      if item == "" then Ok(spans) else
      match ParseItem(item, base)
      case Err(e) => Err(e)
      case Ok(s) => Ok(spans + [s])
  }

  function ReadSpans(text: string): Result<seq<Span>, RangeError> {
    ReadItems(Split(ReplaceChar(text, '\n', ','), ','), 16)
  }

  /** One more item, the spans before it being read. */
  lemma ReadItemsStep(items: seq<string>, n: nat, base: nat, spans: seq<Span>)
    requires n < |items| && ReadItems(items[..n], base) == Ok(spans)
    ensures var item := Strip(items[n]);
            ReadItems(items[..n + 1], base) ==
              if item == "" then Ok(spans) else
              match ParseItem(item, base)
              case Err(e) => Err(e)
              case Ok(s) => Ok(spans + [s])
  {
    assert items[..n + 1][..n] == items[..n];
  }

  method ReadRangeSpans(text: string) returns (r: Result<seq<Span>, RangeError>)
    ensures r == ReadSpans(text)
  {
    var items := Split(ReplaceChar(text, '\n', ','), ',');
    var spans: seq<Span> := [];
    for i := 0 to |items|
      invariant ReadItems(items[..i], 16) == Ok(spans)
    {
      ReadItemsStep(items, i, 16, spans);
      var item := Strip(items[i]);
      if item == "" {
        continue;
      }
      var s := ParseItem(item, 16);
      if s.Err? {
        ReadItemsErr(items, i + 1, 16);
        return Err(s.error);
      }
      spans := spans + [s.value];
    }
    assert items[..|items|] == items;
    r := Ok(spans);
  }

  lemma {:induction false} ReadItemsErr(items: seq<string>, n: nat, base: nat)
    requires n <= |items| && ReadItems(items[..n], base).Err?
    ensures ReadItems(items, base) == ReadItems(items[..n], base)
  {
    if n < |items| {
      assert items[..|items| - 1][..n] == items[..n];
      ReadItemsErr(items[..|items| - 1], n, base);
    } else {
      assert items[..n] == items;
    }
  }

  predicate SpansInclude(spans: seq<Span>, code: int) {
    exists i :: 0 <= i < |spans| && spans[i].Covers(code)
  }

  /** The set reader: base 0, and a range that runs backwards is an error. */
  function CollectItems(items: seq<string>, codes: set<int>): Result<set<int>, RangeError> {
    if items == [] then Ok(codes) else
    match CollectItems(items[..|items| - 1], codes)
    case Err(e) => Err(e)
    case Ok(before) =>
      var item := Strip(items[|items| - 1]);
      if item == "" then Ok(before) else
      match ParseItem(item, 0)
      case Err(e) => Err(e)
      case Ok(s) =>
        if s.end < s.start then Err(InvalidRange(item))
        else Ok(before + CodeSet(Codes(s.start, s.end)))
  }

  function CollectValues(values: seq<string>): Result<set<int>, RangeError> {
    if values == [] then Ok({}) else
    match CollectValues(values[..|values| - 1])
    case Err(e) => Err(e)
    case Ok(before) => CollectItems(Split(values[|values| - 1], ','), before)
  }

  method ParseRanges(values: seq<string>) returns (r: Result<set<int>, RangeError>)
    ensures r == CollectValues(values)
  {
    var codes: set<int> := {};
    for v := 0 to |values|
      invariant CollectValues(values[..v]) == Ok(codes)
    {
      assert values[..v + 1][..v] == values[..v];
      var part := ParseValue(Split(values[v], ','), codes);
      if part.Err? {
        CollectValuesErr(values, v + 1);
        return part;
      }
      codes := part.value;
    }
    assert values[..|values|] == values;
    r := Ok(codes);
  }

  method ParseValue(items: seq<string>, start: set<int>) returns (r: Result<set<int>, RangeError>)
    ensures r == CollectItems(items, start)
  {
    var codes := start;
    for i := 0 to |items|
      invariant CollectItems(items[..i], start) == Ok(codes)
    {
      assert items[..i + 1][..i] == items[..i];
      var token := Strip(items[i]);
      if token == "" {
        continue;
      }
      var s := ParseItem(token, 0);
      if s.Err? {
        CollectItemsErr(items, i + 1, start);
        return Err(s.error);
      }
      if s.value.end < s.value.start {
        CollectItemsErr(items, i + 1, start);
        return Err(InvalidRange(token));
      }
      codes := codes + CodeSet(Codes(s.value.start, s.value.end));
    }
    assert items[..|items|] == items;
    r := Ok(codes);
  }

  lemma {:induction false} CollectItemsErr(items: seq<string>, n: nat, start: set<int>)
    requires n <= |items| && CollectItems(items[..n], start).Err?
    ensures CollectItems(items, start) == CollectItems(items[..n], start)
  {
    if n < |items| {
      assert items[..|items| - 1][..n] == items[..n];
      CollectItemsErr(items[..|items| - 1], n, start);
    } else {
      assert items[..n] == items;
    }
  }

  lemma {:induction false} CollectValuesErr(values: seq<string>, n: nat)
    requires n <= |values| && CollectValues(values[..n]).Err?
    ensures CollectValues(values) == CollectValues(values[..n])
  {
    if n < |values| {
      assert values[..|values| - 1][..n] == values[..n];
      CollectValuesErr(values[..|values| - 1], n);
    } else {
      assert values[..n] == values;
    }
  }

  // ----- round trips

  lemma HexShape(n: nat)
    ensures NoSpace(Hex(n)) && Hex(n) != "" && '-' !in Hex(n) && ',' !in Hex(n)
    ensures ParseInt(Hex(n), 16) == Some(n) && ParseInt(Hex(n), 0) == Some(n)
  {
    ParseIntOfHex(n);
  }

  lemma FindFirst(a: string, c: char, b: string)
    requires c !in a
    ensures Find(a + [c] + b, c) == |a|
    ensures Find(a, c) == |a|
  {
    if a != "" {
      FindFirst(a[1..], c, b);
      assert (a + [c] + b)[1..] == a[1..] + [c] + b;
    }
  }

  lemma SpanTextShape(s: Span)
    requires 0 <= s.start <= s.end
    ensures NoSpace(SpanText(s)) && SpanText(s) != "" && ',' !in SpanText(s)
  {
    HexShape(s.start);
    HexShape(s.end);
  }

  /** A dash splits what stands before it from what stands after it. */
  lemma ParseDashed(a: string, b: string, base: nat, s: Span)
    requires '-' !in a && ParseInt(a, base) == Some(s.start) && ParseInt(b, base) == Some(s.end)
    ensures ParseItem(a + "-" + b, base) == Ok(s)
  {
    var t := a + "-" + b;
    FindFirst(a, '-', b);
    assert t == a + ['-'] + b && t[..|a|] == a && t[|a| + 1..] == b;
  }

  /** One printed span is read back by both readers. */
  lemma SpanTextParses(s: Span, base: nat)
    requires 0 <= s.start <= s.end && (base == 0 || base == 16)
    ensures NoSpace(SpanText(s)) && SpanText(s) != "" && ',' !in SpanText(s)
    ensures ParseItem(SpanText(s), base) == Ok(s)
  {
    SpanTextShape(s);
    HexShape(s.start);
    HexShape(s.end);
    if s.start == s.end {
      FindFirst(Hex(s.start), '-', "");
    } else {
      ParseDashed(Hex(s.start), Hex(s.end), base, s);
    }
  }

  ghost predicate Printable(spans: seq<Span>) {
    forall i :: 0 <= i < |spans| ==> 0 <= spans[i].start <= spans[i].end
  }

  lemma ReadAppend(items: seq<string>, item: string, token: string, base: nat, spans: seq<Span>, s: Span)
    requires ReadItems(items, base) == Ok(spans)
    requires Strip(item) == token != "" && ParseItem(token, base) == Ok(s)
    ensures ReadItems(items + [item], base) == Ok(spans + [s])
  {
    assert (items + [item])[..|items|] == items;
  }

  lemma SpanTextsAppend(spans: seq<Span>)
    requires spans != []
    ensures var n := |spans| - 1; SpanTexts(spans) == SpanTexts(spans[..n]) + [SpanText(spans[n])]
  {
  }

  lemma {:induction false} TextsRead(spans: seq<Span>)
    requires Printable(spans)
    ensures ReadItems(SpanTexts(spans), 16) == Ok(spans)
  {
    if spans != [] {
      var n := |spans| - 1;
      var text := SpanText(spans[n]);
      assert spans == spans[..n] + [spans[n]];
      TextsRead(spans[..n]);
      SpanTextsAppend(spans);
      SpanTextParses(spans[n], 16);
      StripNothing(text);
      ReadAppend(SpanTexts(spans[..n]), text, text, 16, spans[..n], spans[n]);
    }
  }

  /** The tokens of a range file: the spans, and what is left after the final
      line end. */
  lemma TextsSplit(spans: seq<Span>)
    requires Printable(spans) && spans != []
    ensures var text := Join(SpanTexts(spans), ',') + "\n";
            var last := |spans| - 1;
            && Split(ReplaceChar(text, '\n', ','), ',') == SpanTexts(spans) + [""]
            && Split(text, ',') == SpanTexts(spans[..last]) + [SpanText(spans[last]) + "\n"]
  {
    var texts := SpanTexts(spans);
    forall i | 0 <= i < |texts|
      ensures ',' !in texts[i] && '\n' !in texts[i]
    {
      SpanTextParses(spans[i], 16);
      assert IsSpace('\n');
    }
    var joined := Join(texts, ',');
    JoinHas(texts, '\n');
    assert ReplaceChar(joined + "\n", '\n', ',') == joined + [','] + "";
    SplitJoin(texts, ',');
    SplitAppend(joined, "", ',');
    assert (joined + "\n")[..|joined|] == joined;
    SpanTextsAppend(spans);
  }

  lemma {:induction false} JoinHas(parts: seq<string>, c: char)
    requires c != ',' && forall i :: 0 <= i < |parts| ==> c !in parts[i]
    ensures c !in Join(parts, ',')
  {
    if |parts| > 1 {
      JoinHas(parts[..|parts| - 1], c);
    }
  }

  /** The span reader recovers exactly the runs that were printed. */
  lemma SpansReadBack(codes: seq<nat>)
    ensures ReadSpans(RangesText(codes)) == Ok(Runs(codes))
  {
    var spans := Runs(codes);
    if codes == [] {
      assert Join(SpanTexts(spans), ',') == "";
      assert ReplaceChar("", '\n', ',') == "";
      assert ReadItems([""], 16) == Ok([]);
    } else {
      TextsSplit(spans);
      TextsRead(spans);
      var items := SpanTexts(spans) + [""];
      assert items[..|items| - 1] == SpanTexts(spans);
    }
  }

  /** So the validator sees a character in the file exactly when it was in the
      list. */
  lemma IncludedIffWritten(codes: seq<nat>, code: nat)
    ensures ReadSpans(RangesText(codes)).Ok?
    ensures SpansInclude(ReadSpans(RangesText(codes)).value, code) <==> code in codes
  {
    SpansReadBack(codes);
    RunsSpellCodes(codes);
    ExpandCovers(Runs(codes), code);
    assert code in Expand(Runs(codes)) <==> (code as int) in Expand(Runs(codes));
  }

  lemma CollectAppend(items: seq<string>, item: string, token: string, start: set<int>, codes: set<int>, s: Span)
    requires CollectItems(items, start) == Ok(codes) && s.start <= s.end
    requires Strip(item) == token != "" && ParseItem(token, 0) == Ok(s)
    ensures CollectItems(items + [item], start) == Ok(codes + CodeSet(Codes(s.start, s.end)))
  {
    assert (items + [item])[..|items|] == items;
  }

  lemma ExpandSet(spans: seq<Span>)
    requires spans != []
    ensures var n := |spans| - 1;
            CodeSet(Expand(spans)) == CodeSet(Expand(spans[..n])) + CodeSet(Codes(spans[n].start, spans[n].end))
  {
  }

  /** The tokens are collected alike with or without the line end on the last. */
  lemma TextsCollect(spans: seq<Span>, tail: string)
    requires Printable(spans) && spans != [] && (tail == "" || tail == "\n")
    ensures var n := |spans| - 1;
            CollectItems(SpanTexts(spans[..n]) + [SpanText(spans[n]) + tail], {}) == Ok(CodeSet(Expand(spans)))
  {
    var n := |spans| - 1;
    var text := SpanText(spans[n]);
    CollectBefore(spans);
    SpanTextParses(spans[n], 0);
    StripNothing(text);
    assert text + "" == text;
    CollectAppend(SpanTexts(spans[..n]), text + tail, text, {}, CodeSet(Expand(spans[..n])), spans[n]);
    ExpandSet(spans);
  }

  lemma {:induction false} CollectBefore(spans: seq<Span>)
    requires Printable(spans) && spans != []
    ensures CollectItems(SpanTexts(spans[..|spans| - 1]), {}) == Ok(CodeSet(Expand(spans[..|spans| - 1])))
  {
    var init := spans[..|spans| - 1];
    if init == [] {
      assert CodeSet(Expand(init)) == {};
    } else {
      var n := |init| - 1;
      var text := SpanText(init[n]);
      CollectBefore(init);
      SpanTextParses(init[n], 0);
      StripNothing(text);
      CollectAppend(SpanTexts(init[..n]), text, text, {}, CodeSet(Expand(init[..n])), init[n]);
      SpanTextsAppend(init);
      ExpandSet(init);
    }
  }

  lemma CollectOne(text: string)
    ensures CollectValues([text]) == CollectItems(Split(text, ','), {})
  {
    assert [text][..0] == [];
    assert CollectValues([]) == Ok({});
  }

  /** The set reader recovers exactly the set of the printed codes, and never
      finds a backward range. */
  lemma SetReadBack(codes: seq<nat>)
    ensures CollectValues([RangesText(codes)]) == Ok(CodeSet(codes))
  {
    var spans := Runs(codes);
    CollectOne(RangesText(codes));
    if codes == [] {
      NothingCollected();
    } else {
      TextsSplit(spans);
      TextsCollect(spans, "\n");
      SpanTextsAppend(spans);
      RunsSpellCodes(codes);
    }
  }

  lemma NothingCollected()
    ensures RangesText([]) == ""
    ensures CollectItems(Split("", ','), {}) == Ok(CodeSet([]))
  {
    assert SpanTexts([]) == [];
    assert Strip("") == "";
    var items := Split("", ',');
    assert items == [""] && items[..0] == [];
    var none: seq<int> := [];
    assert CodeSet(none) == {};
  }

  /** Reading the text and expanding the spans gives back the very list. */
  lemma TextSpellsCodes(codes: seq<nat>)
    ensures ReadSpans(RangesText(codes)).Ok?
    ensures Expand(ReadSpans(RangesText(codes)).value) == codes
  {
    SpansReadBack(codes);
    RunsSpellCodes(codes);
  }

  /** The text determines the list. */
  lemma TextIsInjective(a: seq<nat>, b: seq<nat>)
    requires RangesText(a) == RangesText(b)
    ensures a == b
  {
    TextSpellsCodes(a);
    TextSpellsCodes(b);
  }
}
