/** What range texts look like and mean, beyond the round trip: the digits of numbers
    in every base, the text of runs, several values together, and where the two
    readers differ. */
module RangeTexts {
  import opened Division
  import opened PyText
  import opened Wrappers
  import opened CodeRanges

  // ----- numbers

  const UPPER := "0123456789ABCDEF"
  const LOWER := "0123456789abcdef"

  /** The digits of a number. */
  function DigitsOf(n: nat, base: nat, digits: string): (s: string)
    requires 2 <= base <= 16 == |digits|
    ensures s != ""
  {
    if n < base then [digits[n]] else DigitsOf(n / base, base, digits) + [digits[n % base]]
  }

  lemma DigitTable(d: nat)
    requires d < 16
    ensures HexDigit(d) == UPPER[d] && DigitOf(UPPER[d], d) && DigitOf(LOWER[d], d)
  {
    assert UPPER[d] == HexDigit(d);
    assert LOWER[d] == if d < 10 then '0' + d as char else 'a' + (d - 10) as char;
  }

  /** Codes are printed with upper-case digits. */
  lemma {:induction false} ToHexIs(n: nat)
    ensures ToHex(n) == DigitsOf(n, 16, UPPER)
  {
    DigitTable(n % 16);
    if n >= 16 {
      ToHexIs(n / 16);
    }
  }

  ghost predicate Plain(s: string) {
    NoSpace(s) && '_' !in s && '-' !in s && '+' !in s && ',' !in s
  }

  ghost predicate DigitOf(c: char, d: nat) {
    DigitValue(c) == Some(d) && Plain([c]) && (c == '0' ==> d == 0)
  }

  /** A digit for every value below 16. */
  ghost predicate Table(digits: string) {
    |digits| == 16 && forall d :: 0 <= d < 16 ==> DigitOf(digits[d], d)
  }

  lemma BothTables()
    ensures Table(UPPER) && Table(LOWER)
  {
    forall d | 0 <= d < 16
      ensures DigitOf(UPPER[d], d) && DigitOf(LOWER[d], d)
    {
      DigitTable(d);
    }
  }

  /** One more digit. */
  lemma DigitsAppend(s: string, c: char, base: nat, q: nat, r: nat)
    requires s != "" && Plain(s) && ParseDigits(s, base) == Some(q)
    requires DigitOf(c, r) && r < base
    ensures Plain(s + [c]) && ParseDigits(s + [c], base) == Some(q * base + r)
  {
    var t := s + [c];
    assert t[..|t| - 1] == s && t[|t| - 1] == c;
    assert t[|t| - 2] == s[|s| - 1] && s[|s| - 1] in s;
    assert c == [c][0];
  }

  lemma Divided(n: nat, base: nat)
    requires base >= 2 && n >= base
    ensures 0 < n / base < n && n / base * base + n % base == n
  {
    FloorDiv(n, base, 1);
    assert n == n / base * base + n % base;
    assert n / base * 2 <= n / base * base;
  }

  ghost predicate Reads(s: string, base: nat, n: nat) {
    s != "" && Plain(s) && ParseDigits(s, base) == Some(n) && (s[0] == '0' ==> n == 0 && |s| == 1)
  }

  lemma OneDigit(c: char, d: nat, base: nat)
    requires DigitOf(c, d) && d < base
    ensures Reads([c], base, d)
  {
  }

  lemma {:induction false} DigitsRead(n: nat, base: nat, digits: string)
    requires 2 <= base <= 16 && Table(digits)
    ensures Reads(DigitsOf(n, base, digits), base, n)
    decreases n
  {
    var q, r := n / base, n % base;
    if n < base {
      OneDigit(digits[n], n, base);
    } else {
      Divided(n, base);
      DigitsRead(q, base, digits);
      DigitsAppend(DigitsOf(q, base, digits), digits[r], base, q, r);
    }
  }

  function Prefix(base: nat): string
    requires base in {2, 8, 10, 16}
  {
    if base == 2 then "0b" else if base == 8 then "0o" else if base == 16 then "0x" else ""
  }

  lemma PrefixRead(prefix: string, d: string, base: nat, n: nat)
    requires Reads(d, base, n) && base in {2, 8, 16} && prefix == Prefix(base)
    ensures Plain(prefix + d) && ParseInt(prefix + d, 0) == Some(n)
  {
    var s := prefix + d;
    assert d[0] in d && s[2..] == d && s[2] == d[0];
    StripNothing(s);
  }

  lemma DecimalRead(d: string, n: nat)
    requires Reads(d, 10, n)
    ensures ParseInt(d, 0) == Some(n)
  {
    assert d[0] in d;
    StripNothing(d);
  }

  /** A number in any of the four notations is read by its prefix, and one without a
      prefix as decimal. */
  lemma NotationRead(n: nat, base: nat, digits: string)
    requires base in {2, 8, 10, 16} && (digits == UPPER || digits == LOWER)
    ensures Plain(Prefix(base) + DigitsOf(n, base, digits))
    ensures ParseInt(Prefix(base) + DigitsOf(n, base, digits), 0) == Some(n)
  {
    var d := DigitsOf(n, base, digits);
    BothTables();
    DigitsRead(n, base, digits);
    if base == 10 {
      assert Prefix(base) + d == d;
      DecimalRead(d, n);
    } else {
      PrefixRead(Prefix(base), d, base, n);
    }
  }

  /** The other reader takes a number without a prefix as hexadecimal. */
  lemma UnprefixedIsHex(n: nat, digits: string)
    requires digits == UPPER || digits == LOWER
    ensures ParseInt(DigitsOf(n, 16, digits), 16) == Some(n)
  {
    var d := DigitsOf(n, 16, digits);
    BothTables();
    DigitsRead(n, 16, digits);
    StripNothing(d);
    assert d[0] in d;
  }

  // ----- the text of runs

  lemma {:induction false} RunsExtend(codes: seq<nat>, a: nat, b: nat, run: seq<nat>)
    requires a <= b && run == Codes(a, b) && (codes != [] ==> a != codes[|codes| - 1] + 1)
    ensures Runs(codes + run) == Runs(codes) + [Span(a, b)]
    decreases b - a
  {
    var n := |run| - 1;
    assert (codes + run)[..|codes + run| - 1] == codes + run[..n];
    if a == b {
      assert codes + run[..n] == codes;
      LastRun(codes);
    } else {
      assert run[..n] == Codes(a, b - 1);
      RunsExtend(codes, a, b - 1, run[..n]);
    }
  }

  lemma LastRun(codes: seq<nat>)
    ensures codes == [] <==> Runs(codes) == []
    ensures codes != [] ==> Runs(codes)[|Runs(codes)| - 1].end == codes[|codes| - 1]
  {
  }

  /** What a run is printed as. */
  lemma SpanTextIs(a: nat, b: nat)
    requires a <= b
    ensures SpanText(Span(a, b)) == if a == b then "0x" + DigitsOf(a, 16, UPPER)
                                    else "0x" + DigitsOf(a, 16, UPPER) + "-" + ("0x" + DigitsOf(b, 16, UPPER))
  {
    ToHexIs(a);
    ToHexIs(b);
  }

  /** A text ends with a line end, and nothing is printed for nothing. */
  lemma LineOfSpans(codes: seq<nat>)
    ensures codes == [] ==> RangesText(codes) == ""
    ensures codes != [] ==> RangesText(codes) == Join(SpanTexts(Runs(codes)), ',') + "\n"
  {
    if codes == [] {
      assert SpanTexts(Runs(codes)) == [];
    }
  }

  lemma JoinMore(parts: seq<string>, part: string)
    ensures parts != [] ==> Join(parts + [part], ',') == Join(parts, ',') + "," + part
    ensures parts == [] ==> Join(parts + [part], ',') == part
  {
    assert (parts + [part])[..|parts|] == parts;
  }

  /** The text grows by one item with every run: the text so far without its line end,
      a comma if there was any, and the run. */
  lemma TextOfRun(codes: seq<nat>, a: nat, b: nat, run: seq<nat>)
    requires a <= b && run == Codes(a, b) && (codes != [] ==> a != codes[|codes| - 1] + 1)
    ensures var text := RangesText(codes);
            && (codes == [] ==> RangesText(codes + run) == SpanText(Span(a, b)) + "\n")
            && (codes != [] ==>
                  && text != "" && text[|text| - 1] == '\n'
                  && RangesText(codes + run) == text[..|text| - 1] + "," + SpanText(Span(a, b)) + "\n")
  {
    RunsExtend(codes, a, b, run);
    LastRun(codes);
    LineOfSpans(codes);
    LineOfSpans(codes + run);
    var spans := Runs(codes);
    assert SpanTexts(spans + [Span(a, b)]) == SpanTexts(spans) + [SpanText(Span(a, b))];
    JoinMore(SpanTexts(spans), SpanText(Span(a, b)));
  }

  // ----- several values

  /** What one list of items collects does not depend on what was there. */
  lemma {:induction false} CollectFrom(items: seq<string>, start: set<int>)
    ensures match CollectItems(items, {})
            case Err(e) => CollectItems(items, start) == Err(e)
            case Ok(codes) => CollectItems(items, start) == Ok(start + codes)
  {
    if items == [] {
      assert start + {} == start;
    } else {
      CollectFrom(items[..|items| - 1], start);
      if CollectItems(items, {}).Ok? {
        var before := CollectItems(items[..|items| - 1], {}).value;
        var item := Strip(items[|items| - 1]);
        if item != "" {
          var s := ParseItem(item, 0).value;
          assert start + (before + CodeSet(Codes(s.start, s.end))) == start + before + CodeSet(Codes(s.start, s.end));
        }
      }
    }
  }

  /** Several values are united, in any order; the first bad one decides. */
  lemma ValuesUnited(values: seq<string>, value: string)
    ensures CollectValues([]) == Ok({})
    ensures CollectValues(values + [value]) ==
      match CollectValues(values)
      case Err(e) => Err(e)
      case Ok(before) =>
        match CollectValues([value])
        case Err(e) => Err(e)
        case Ok(codes) => Ok(before + codes)
  {
    assert (values + [value])[..|values|] == values && (values + [value])[|values|] == value;
    CollectOne(value);
    if CollectValues(values).Ok? {
      CollectFrom(Split(value, ','), CollectValues(values).value);
    }
  }

  function Texts(lists: seq<seq<nat>>): (texts: seq<string>)
    ensures |texts| == |lists|
  {
    seq(|lists|, i requires 0 <= i < |lists| => RangesText(lists[i]))
  }

  function Union(lists: seq<seq<nat>>): set<int> {
    if lists == [] then {} else Union(lists[..|lists| - 1]) + CodeSet(lists[|lists| - 1])
  }

  lemma {:induction false} InUnion(lists: seq<seq<nat>>, code: int)
    ensures code in Union(lists) <==> exists i :: 0 <= i < |lists| && code in lists[i]
  {
    if lists != [] {
      InUnion(lists[..|lists| - 1], code);
    }
  }

  /** Any number of printed texts are read back as the codes of all the lists. */
  lemma {:induction false} SetsReadBack(lists: seq<seq<nat>>)
    ensures CollectValues(Texts(lists)) == Ok(Union(lists))
  {
    if lists == [] {
      assert CollectValues([]) == Ok({});
    } else {
      var n := |lists| - 1;
      SetsReadBack(lists[..n]);
      assert Texts(lists) == Texts(lists[..n]) + [RangesText(lists[n])];
      ValuesUnited(Texts(lists[..n]), RangesText(lists[n]));
      SetReadBack(lists[n]);
    }
  }

  // ----- one item, in any notation

  lemma SingleItem(token: string)
    requires NoSpace(token) && ',' !in token && token != ""
    ensures Split(token, ',') == [token] && Strip(token) == token
  {
    SplitSingle(token, ',');
    StripNothing(token);
  }

  lemma Dashed(a: string, b: string, token: string)
    requires Plain(a) && Plain(b) && token == a + "-" + b
    ensures NoSpace(token) && ',' !in token && token != ""
  {
  }

  /** What one item contributes. */
  function ItemSet(token: string): Result<set<int>, RangeError> {
    match ParseItem(token, 0)
    case Err(e) => Err(e)
    case Ok(s) => if s.end < s.start then Err(InvalidRange(token)) else Ok(CodeSet(Codes(s.start, s.end)))
  }

  lemma OneItem(items: seq<string>, token: string)
    requires items == [token] && token != "" && Strip(token) == token
    ensures CollectItems(items, {}) == ItemSet(token)
  {
    var none: seq<string> := items[..0];
    assert CollectItems(none, {}) == Ok({});
    if ItemSet(token).Ok? {
      assert {} + ItemSet(token).value == ItemSet(token).value;
    }
  }

  lemma CollectToken(token: string)
    requires NoSpace(token) && ',' !in token && token != ""
    ensures CollectValues([token]) == ItemSet(token)
  {
    SingleItem(token);
    CollectOne(token);
    OneItem(Split(token, ','), token);
  }

  lemma CodesAre(start: int, end: int, code: int)
    requires start <= end
    ensures code in CodeSet(Codes(start, end)) <==> start <= code <= end
  {
    if start <= code <= end {
      assert Codes(start, end)[code - start] == code;
    }
  }

  /** A range from `a` to `b` written in any notation: the codes between, or an error if it
      runs backwards. */
  lemma RangeCollected(a: string, b: string, start: nat, end: nat, code: int)
    requires Plain(a) && Plain(b) && ParseInt(a, 0) == Some(start) && ParseInt(b, 0) == Some(end)
    ensures var r := CollectValues([a + "-" + b]);
            if end < start then r == Err(InvalidRange(a + "-" + b))
            else r.Ok? && (code in r.value <==> start <= code <= end)
  {
    var token := a + "-" + b;
    Dashed(a, b, token);
    ParseDashed(a, b, 0, Span(start, end));
    CollectToken(token);
    if start <= end {
      CodesAre(start, end, code);
    }
  }

  /** And a single number. */
  lemma NumberCollected(a: string, n: nat)
    requires a != "" && Plain(a) && ParseInt(a, 0) == Some(n)
    ensures CollectValues([a]) == Ok({n as int})
  {
    CollectToken(a);
    FindFirst(a, '-', "");
    CodesOfOne(n);
  }

  lemma CodesOfOne(n: int)
    ensures CodeSet(Codes(n, n)) == {n}
  {
    assert Codes(n, n) == [n];
  }

  lemma OneSpan(items: seq<string>, token: string, s: Span)
    requires items == [token] && token != "" && Strip(token) == token && ParseItem(token, 16) == Ok(s)
    ensures ReadItems(items, 16) == Ok([s])
  {
    var none: seq<string> := items[..0];
    assert ReadItems(none, 16) == Ok([]);
    var noSpans: seq<Span> := [];
    assert noSpans + [s] == [s];
  }

  lemma NoLineEnd(token: string)
    requires NoSpace(token)
    ensures ReplaceChar(token, '\n', ',') == token
  {
    assert IsSpace('\n');
  }

  /** The other reader keeps a range that runs backwards, and it holds no code. */
  lemma BackwardRead(a: string, b: string, start: nat, end: nat, code: int)
    requires Plain(a) && Plain(b) && end < start
    requires ParseInt(a, 16) == Some(start) && ParseInt(b, 16) == Some(end)
    ensures ReadSpans(a + "-" + b) == Ok([Span(start, end)])
    ensures !SpansInclude([Span(start, end)], code)
  {
    var token := a + "-" + b;
    Dashed(a, b, token);
    SingleItem(token);
    ParseDashed(a, b, 16, Span(start, end));
    NoLineEnd(token);
    OneSpan([token], token, Span(start, end));
  }
}
