/** The string operations of the source's language that the text formats use. */
module PyText {
  import opened Wrappers

  /** Python's `str.isspace` on one character. */
  predicate IsSpace(c: char) {
    var n := c as int;
    || 0x09 <= n <= 0x0D || 0x1C <= n <= 0x20 || n == 0x85 || n == 0xA0 || n == 0x1680
    || 0x2000 <= n <= 0x200A || n == 0x2028 || n == 0x2029 || n == 0x202F || n == 0x205F || n == 0x3000
  }

  predicate AllSpace(s: string) {
    forall i :: 0 <= i < |s| ==> IsSpace(s[i])
  }

  function StripRight(s: string): string {
    if s != [] && IsSpace(s[|s| - 1]) then StripRight(s[..|s| - 1]) else s
  }

  function StripLeft(s: string): string {
    if s != [] && IsSpace(s[0]) then StripLeft(s[1..]) else s
  }

  function Strip(s: string): string {
    StripLeft(StripRight(s))
  }

  predicate NoSpace(s: string) {
    forall i :: 0 <= i < |s| ==> !IsSpace(s[i])
  }

  lemma StripNothing(s: string)
    requires NoSpace(s)
    ensures Strip(s) == s && Strip(s + "\n") == s
  {
    assert (s + "\n")[..|s|] == s;
    assert StripRight(s + "\n") == StripRight(s);
  }

  /** `s.split(sep)` for a one-character separator. */
  function Split(s: string, sep: char): (parts: seq<string>)
    ensures |parts| > 0
  {
    if s == "" then [""] else
    var parts := Split(s[..|s| - 1], sep);
    if s[|s| - 1] == sep then parts + [""]
    else parts[..|parts| - 1] + [parts[|parts| - 1] + [s[|s| - 1]]]
  }

  /** `sep.join(parts)` for a one-character separator. */
  function Join(parts: seq<string>, sep: char): string {
    if parts == [] then ""
    else if |parts| == 1 then parts[0]
    else Join(parts[..|parts| - 1], sep) + [sep] + parts[|parts| - 1]
  }

  lemma {:induction false} SplitSingle(s: string, sep: char)
    requires sep !in s
    ensures Split(s, sep) == [s]
  {
    if s != "" {
      SplitSingle(s[..|s| - 1], sep);
      assert s == s[..|s| - 1] + [s[|s| - 1]];
    }
  }

  lemma {:induction false} SplitAppend(a: string, b: string, sep: char)
    requires sep !in b
    ensures Split(a + [sep] + b, sep) == Split(a, sep) + [b]
  {
    if b == "" {
      assert a + [sep] + b == a + [sep];
      assert (a + [sep])[..|a|] == a;
    } else {
      var b' := b[..|b| - 1];
      SplitAppend(a, b', sep);
      assert (a + [sep] + b)[..|a + [sep] + b| - 1] == a + [sep] + b';
      assert b == b' + [b[|b| - 1]];
    }
  }

  /** Splitting undoes joining when no part contains the separator. */
  lemma {:induction false} SplitJoin(parts: seq<string>, sep: char)
    requires parts != [] && forall i :: 0 <= i < |parts| ==> sep !in parts[i]
    ensures Split(Join(parts, sep), sep) == parts
  {
    var n := |parts| - 1;
    if n == 0 {
      SplitSingle(parts[0], sep);
    } else {
      var init, last := parts[..n], parts[n];
      SplitJoin(init, sep);
      SplitAppend(Join(init, sep), last, sep);
      assert parts == init + [last];
    }
  }

  /** `s.replace(old, new)` for single characters. */
  function ReplaceChar(s: string, was: char, now: char): (r: string)
    ensures |r| == |s|
  {
    seq(|s|, i requires 0 <= i < |s| => if s[i] == was then now else s[i])
  }

  /** The position of the first `c`, or the length if there is none. */
  function Find(s: string, c: char): (i: nat)
    ensures i <= |s|
    ensures c !in s[..i]
    ensures i < |s| ==> s[i] == c
  {
    if s == "" || s[0] == c then 0 else
    assert s[..1 + Find(s[1..], c)] == [s[0]] + s[1..][..Find(s[1..], c)];
    1 + Find(s[1..], c)
  }

  // ----- int(text, base)

  function DigitValue(c: char): Option<nat> {
    if '0' <= c <= '9' then Some(c as int - '0' as int)
    else if 'a' <= c <= 'z' then Some(c as int - 'a' as int + 10)
    else if 'A' <= c <= 'Z' then Some(c as int - 'A' as int + 10)
    else None
  }

  /** Digits below `base`, with single underscores allowed between them. */
  function ParseDigits(s: string, base: nat): Option<nat> {
    if s == "" then None else
    var n := |s| - 1;
    match DigitValue(s[n])
    case None => None
    case Some(d) =>
      if d >= base then None
      else if n == 0 then Some(d)
      else
        match ParseDigits(if s[n - 1] == '_' then s[..n - 1] else s[..n], base)
        case None => None
        case Some(v) => Some(v * base + d)
  }

  /** The base a prefix stands for, if there is one. */
  function PrefixBase(s: string): Option<nat> {
    if |s| < 2 || s[0] != '0' then None
    else if s[1] == 'x' || s[1] == 'X' then Some(16)
    else if s[1] == 'o' || s[1] == 'O' then Some(8)
    else if s[1] == 'b' || s[1] == 'B' then Some(2)
    else None
  }

  /** The digits after a prefix, which one underscore may separate from it. */
  function AfterPrefix(s: string, base: nat): Option<nat>
    requires |s| >= 2
  {
    ParseDigits(if |s| > 2 && s[2] == '_' then s[3..] else s[2..], base)
  }

  /** An unsigned literal; base 0 means that the prefix decides, and a decimal
      without one must not begin with 0 unless it is 0. */
  function ParseUnsigned(s: string, base: nat): Option<nat> {
    if base == 0 then
      match PrefixBase(s)
      case Some(b) => AfterPrefix(s, b)
      case None =>
        match ParseDigits(s, 10)
        case None => None
        case Some(v) => if s[0] == '0' && v != 0 then None else Some(v)
    else if PrefixBase(s) == Some(base) then AfterPrefix(s, base)
    else ParseDigits(s, base)
  }

  /** `int(text, base)`; `None` is the value error. */
  function ParseInt(text: string, base: nat): Option<int> {
    var s := Strip(text);
    if s != "" && (s[0] == '-' || s[0] == '+') then
      match ParseUnsigned(s[1..], base)
      case None => None
      case Some(v) => Some(if s[0] == '-' then 0 - v else v)
    else
      match ParseUnsigned(s, base)
      case None => None
      case Some(v) => Some(v)
  }

  // ----- upper-case hexadecimal

  function HexDigit(d: nat): (c: char)
    requires d < 16
    ensures DigitValue(c) == Some(d) && !IsSpace(c) && c != '_' && c != '-' && c != ',' && c != '+'
  {
    if d < 10 then '0' + d as char else 'A' + (d - 10) as char
  }

  /** The digits of `f"{n:X}"`. */
  function ToHex(n: nat): (s: string)
    ensures s != "" && NoSpace(s) && '-' !in s && ',' !in s && '_' !in s
  {
    if n < 16 then [HexDigit(n)] else ToHex(n / 16) + [HexDigit(n % 16)]
  }

  lemma {:induction false} ParseToHex(n: nat)
    ensures ParseDigits(ToHex(n), 16) == Some(n)
  {
    if n >= 16 {
      ParseToHex(n / 16);
      var s := ToHex(n);
      assert s[..|s| - 1] == ToHex(n / 16);
      assert s[|s| - 2] != '_';
    }
  }

  /** A code printed as `0x...` is read back by both readers. */
  lemma ParseIntOfHex(n: nat)
    ensures ParseInt("0x" + ToHex(n), 16) == Some(n)
    ensures ParseInt("0x" + ToHex(n), 0) == Some(n)
  {
    var s := "0x" + ToHex(n);
    assert NoSpace(s);
    StripNothing(s);
    assert s[2..] == ToHex(n);
    assert s[2] != '_';
    ParseToHex(n);
  }
}
