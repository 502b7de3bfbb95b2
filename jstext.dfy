/** The JavaScript string and number conversions the controllers and the email
    templates rely on: split on a one-character separator, parseInt, Number,
    template rendering of integers, trim, replace(/_/g, ' '), and the binary
    string order MongoDB applies to $gte / $lte on strings. */
module JsText {
  import opened Collections

  /** ECMA-262 StrWhiteSpaceChar (WhiteSpace and LineTerminator): what trim() and parseInt skip. */
  predicate IsJsWhitespace(c: char) {
    c == '\t' || c == '\n' || c == '\U{B}' || c == '\U{C}' || c == '\r' || c == ' '
    || c == '\U{A0}' || c == '\U{1680}' || ('\U{2000}' <= c <= '\U{200A}')
    || c == '\U{2028}' || c == '\U{2029}' || c == '\U{202F}' || c == '\U{205F}'
    || c == '\U{3000}' || c == '\U{FEFF}'
  }

  /** s without its leading whitespace. */
  function TrimStart(s: string): (r: string)
    ensures |r| <= |s| && r == s[|s| - |r|..]
    ensures forall k :: 0 <= k < |s| - |r| ==> IsJsWhitespace(s[k])
    ensures |r| > 0 ==> !IsJsWhitespace(r[0])
  {
    if |s| > 0 && IsJsWhitespace(s[0]) then TrimStart(s[1..]) else s
  }

  /** s without its trailing whitespace. */
  function TrimEnd(s: string): (r: string)
    ensures |r| <= |s| && r == s[..|r|]
    ensures forall k :: |r| <= k < |s| ==> IsJsWhitespace(s[k])
    ensures |r| > 0 ==> !IsJsWhitespace(r[|r| - 1])
  {
    if |s| > 0 && IsJsWhitespace(s[|s| - 1]) then TrimEnd(s[..|s| - 1]) else s
  }

  /** String.prototype.trim. */
  function Trim(s: string): string {
    TrimEnd(TrimStart(s))
  }

  /** s.trim() === '' exactly when every character of s is whitespace. */
  lemma TrimEmptyIffBlank(s: string)
    ensures Trim(s) == "" <==> forall k :: 0 <= k < |s| ==> IsJsWhitespace(s[k])
  {
  }

  /** s.split(sep) for a one-character separator: the pieces between separators, at least one. */
  function Split(s: string, sep: char): (r: seq<string>)
    ensures |r| >= 1
    ensures forall k :: 0 <= k < |r| ==> sep !in r[k]
  {
    if |s| == 0 then [""]
    else
      var p := Split(s[..|s| - 1], sep);
      if s[|s| - 1] == sep then p + [""]
      else p[..|p| - 1] + [p[|p| - 1] + [s[|s| - 1]]]
  }

  /** The pieces put back together with the separator between them. */
  function Join(parts: seq<string>, sep: char): string
    requires |parts| >= 1
  {
    if |parts| == 1 then parts[0]
    else Join(parts[..|parts| - 1], sep) + [sep] + parts[|parts| - 1]
  }

  /** Splitting loses nothing: joining the pieces gives the string back. */
  lemma {:induction false} JoinSplit(s: string, sep: char)
    ensures Join(Split(s, sep), sep) == s
  {
    if |s| > 0 {
      var s', c := s[..|s| - 1], s[|s| - 1];
      var p := Split(s', sep);
      JoinSplit(s', sep);
      assert s == s' + [c];
      if c != sep && |p| > 1 {
        var q := p[..|p| - 1] + [p[|p| - 1] + [c]];
        assert q[..|q| - 1] == p[..|p| - 1];
      }
    }
  }

  /** A string without the separator is one piece. */
  lemma {:induction false} SplitNoSeparator(y: string, sep: char)
    requires sep !in y
    ensures Split(y, sep) == [y]
  {
    if |y| > 0 {
      SplitNoSeparator(y[..|y| - 1], sep);
      assert y == y[..|y| - 1] + [y[|y| - 1]];
    }
  }

  /** A separator followed by a separator-free tail adds that tail as the last piece. */
  lemma {:induction false} SplitAppend(x: string, sep: char, y: string)
    requires sep !in y
    ensures Split(x + [sep] + y, sep) == Split(x, sep) + [y]
    decreases |y|
  {
    var z := x + [sep] + y;
    if |y| == 0 {
      assert z[..|z| - 1] == x;
    } else {
      var y' := y[..|y| - 1];
      assert z[..|z| - 1] == x + [sep] + y';
      assert y == y' + [y[|y| - 1]];
      SplitAppend(x, sep, y');
    }
  }

  /** Joining separator-free pieces and splitting again gives the pieces back. */
  lemma {:induction false} SplitJoin(parts: seq<string>, sep: char)
    requires |parts| >= 1
    requires forall k :: 0 <= k < |parts| ==> sep !in parts[k]
    ensures Split(Join(parts, sep), sep) == parts
  {
    if |parts| == 1 {
      SplitNoSeparator(parts[0], sep);
    } else {
      var init := parts[..|parts| - 1];
      SplitJoin(init, sep);
      SplitAppend(Join(init, sep), sep, parts[|parts| - 1]);
      assert parts == init + [parts[|parts| - 1]];
    }
  }

  predicate IsDigit(c: char) {
    '0' <= c <= '9'
  }

  /** A digit of radix 10, or of radix 16 when hex holds. */
  predicate IsRadixDigit(c: char, hex: bool) {
    IsDigit(c) || (hex && (('a' <= c <= 'f') || ('A' <= c <= 'F')))
  }

  function DigitValue(c: char): nat
    requires IsRadixDigit(c, true)
  {
    if IsDigit(c) then (c as int) - ('0' as int)
    else if 'a' <= c <= 'f' then (c as int) - ('a' as int) + 10
    else (c as int) - ('A' as int) + 10
  }

  /** The value of a run of digits in radix 10 or 16. */
  function Value(digits: string, hex: bool): nat
    requires forall k :: 0 <= k < |digits| ==> IsRadixDigit(digits[k], hex)
  {
    if |digits| == 0 then 0
    else
      assert IsRadixDigit(digits[|digits| - 1], hex);
      Value(digits[..|digits| - 1], hex) * (if hex then 16 else 10) + DigitValue(digits[|digits| - 1])
  }

  /** Length of the longest prefix of s made of digits. */
  function DigitRun(s: string, hex: bool): (n: nat)
    ensures n <= |s|
    ensures forall k :: 0 <= k < n ==> IsRadixDigit(s[k], hex)
    ensures n < |s| ==> !IsRadixDigit(s[n], hex)
  {
    if |s| > 0 && IsRadixDigit(s[0], hex) then 1 + DigitRun(s[1..], hex) else 0
  }

  /** The values a parsed number or a missing array element can take in the templates. */
  datatype JsNum = Undefined | NaN | Num(n: int)

  /** A JavaScript number with the given sign and magnitude. */
  function Signed(negative: bool, v: nat): (r: JsNum)
    ensures r.Num? && (if negative then r.n == -(v as int) else r.n == v)
  {
    Num(if negative then -(v as int) else v)
  }

  /** The digits after an optional sign: the longest run of digits, in radix 16 after a
      "0x" / "0X" prefix; None when there is no digit at all. */
  function ParseMagnitude(u: string): (r: Option<nat>)
    ensures (forall k :: 0 <= k < |u| ==> IsDigit(u[k])) && |u| >= 1 && (u[0] == '0' ==> |u| == 1)
            ==> r == Some(Value(u, false))
  {
    var hex := |u| >= 2 && u[0] == '0' && (u[1] == 'x' || u[1] == 'X');
    var body := if hex then u[2..] else u;
    var n := DigitRun(body, hex);
    if n == 0 then None
    else
      assert n == |body| ==> body[..n] == body;
      Some(Value(body[..n], hex))
  }

  /** parseInt(s) without a radix: leading whitespace skipped, an optional sign, then
      ParseMagnitude; no digit at all is NaN. */
  function ParseInt(s: string): (r: JsNum)
    ensures r != Undefined
  {
    var t := TrimStart(s);
    var negative := |t| > 0 && t[0] == '-';
    var u := if |t| > 0 && (t[0] == '-' || t[0] == '+') then t[1..] else t;
    match ParseMagnitude(u)
    case None => NaN
    case Some(v) => Signed(negative, v)
  }

  /** A non-empty run made only of decimal digits, read in radix 10. */
  function DecimalMagnitude(u: string): (r: Option<nat>)
    ensures r.Some? <==> |u| >= 1 && forall k :: 0 <= k < |u| ==> IsDigit(u[k])
  {
    if |u| >= 1 && forall k :: 0 <= k < |u| ==> IsDigit(u[k]) then Some(Value(u, false)) else None
  }

  /** Number(s) for a string, as far as integer spellings go: surrounding whitespace is ignored,
      a blank string is 0, an optional sign and decimal digits give that integer; anything else
      is NaN here. */
  function NumberOf(s: string): (r: JsNum)
    ensures r != Undefined
  {
    NumberOfTrimmed(Trim(s))
  }

  /** Number() of a string without surrounding whitespace. */
  function NumberOfTrimmed(t: string): (r: JsNum)
    ensures r != Undefined
  {
    if t == "" then Num(0)
    else
      var u := if t[0] == '-' || t[0] == '+' then t[1..] else t;
      match DecimalMagnitude(u)
      case None => NaN
      case Some(v) => Signed(t[0] == '-', v)
  }

  function DigitChar(d: nat): (c: char)
    requires d < 10
    ensures IsDigit(c) && DigitValue(c) == d
  {
    (('0' as int) + d) as char
  }

  /** The decimal digits of n, without leading zeros. */
  function NatToString(n: nat): (s: string)
    ensures |s| >= 1
    ensures forall k :: 0 <= k < |s| ==> IsDigit(s[k])
    ensures s[0] == '0' ==> n == 0
  {
    if n < 10 then [DigitChar(n)] else NatToString(n / 10) + [DigitChar(n % 10)]
  }

  /** `${n}` for an integer n (JavaScript switches to exponent notation only from 10^21 on). */
  function IntToString(n: int): string {
    if n < 0 then "-" + NatToString(-n) else NatToString(n)
  }

  /** Reading the digits of n back gives n. */
  lemma {:induction false} NatToStringValue(n: nat)
    ensures Value(NatToString(n), false) == n
  {
    if n >= 10 {
      NatToStringValue(n / 10);
      var s := NatToString(n);
      assert s[..|s| - 1] == NatToString(n / 10);
    }
  }

  /** A string starting with a non-whitespace character is its own TrimStart. */
  lemma TrimStartNoop(s: string)
    requires |s| > 0 && !IsJsWhitespace(s[0])
    ensures TrimStart(s) == s
  {
  }

  /** A string ending with a non-whitespace character is its own TrimEnd. */
  lemma TrimEndNoop(s: string)
    requires |s| > 0 && !IsJsWhitespace(s[|s| - 1])
    ensures TrimEnd(s) == s
  {
  }

  /** parseInt of a digit run without a sign reads its magnitude. */
  lemma ParseIntOfPlainMagnitude(digits: string, v: nat)
    requires |digits| >= 1 && IsDigit(digits[0]) && ParseMagnitude(digits) == Some(v)
    ensures ParseInt(digits) == Num(v)
  {
    TrimStartNoop(digits);
  }

  /** A digit run without a leading zero is read as a decimal magnitude. */
  lemma MagnitudeOfDigits(digits: string)
    requires |digits| >= 1 && forall k :: 0 <= k < |digits| ==> IsDigit(digits[k])
    requires digits[0] == '0' ==> |digits| == 1
    ensures ParseMagnitude(digits) == Some(Value(digits, false))
  {
  }

  /** parseInt of a minus sign followed by u reads the magnitude u spells. */
  lemma ParseIntAfterMinus(u: string)
    ensures ParseMagnitude(u).None? ==> ParseInt("-" + u) == NaN
    ensures ParseMagnitude(u).Some? ==> ParseInt("-" + u) == Num(-(ParseMagnitude(u).value as int))
  {
    var s := "-" + u;
    assert s[0] == '-' && s[1..] == u;
    TrimStartNoop(s);
  }

  /** parseInt reads back every integer the templates render. */
  lemma ParseIntRoundTrip(n: int)
    ensures ParseInt(IntToString(n)) == Num(n)
  {
    var m: nat := if n < 0 then -n else n;
    var digits := NatToString(m);
    NatToStringValue(m);
    MagnitudeOfDigits(digits);
    if n < 0 {
      assert IntToString(n) == "-" + digits;
      ParseIntAfterMinus(digits);
    } else {
      assert IntToString(n) == digits;
      ParseIntOfPlainMagnitude(digits, m);
    }
  }

  /** Number() of a trimmed minus sign followed by u reads the decimal magnitude u spells. */
  lemma NumberOfTrimmedMinus(u: string)
    ensures DecimalMagnitude(u).None? ==> NumberOfTrimmed("-" + u) == NaN
    ensures DecimalMagnitude(u).Some? ==> NumberOfTrimmed("-" + u) == Num(-(DecimalMagnitude(u).value as int))
  {
    var s := "-" + u;
    assert s[0] == '-' && s[1..] == u;
  }

  /** Number() of a trimmed string starting with a digit reads its decimal magnitude. */
  lemma NumberOfTrimmedPlain(u: string)
    requires |u| >= 1 && IsDigit(u[0])
    ensures DecimalMagnitude(u).None? ==> NumberOfTrimmed(u) == NaN
    ensures DecimalMagnitude(u).Some? ==> NumberOfTrimmed(u) == Num(DecimalMagnitude(u).value)
  {
  }

  /** A string that starts and ends with non-whitespace is its own trim. */
  lemma TrimNoop(s: string)
    requires |s| > 0 && !IsJsWhitespace(s[0]) && !IsJsWhitespace(s[|s| - 1])
    ensures Trim(s) == s
  {
    TrimStartNoop(s);
    TrimEndNoop(s);
  }

  /** Number() of a minus sign followed by a run ending in a digit reads the run's magnitude. */
  lemma NumberOfMinus(u: string)
    requires |u| >= 1 && IsDigit(u[|u| - 1])
    ensures DecimalMagnitude(u).Some? ==> NumberOf("-" + u) == Num(-(DecimalMagnitude(u).value as int))
  {
    var s := "-" + u;
    assert s[0] == '-' && s[|s| - 1] == u[|u| - 1];
    TrimNoop(s);
    NumberOfTrimmedMinus(u);
  }

  /** Number() of a run that starts and ends with a digit reads its magnitude. */
  lemma NumberOfPlain(u: string)
    requires |u| >= 1 && IsDigit(u[0]) && IsDigit(u[|u| - 1])
    ensures DecimalMagnitude(u).Some? ==> NumberOf(u) == Num(DecimalMagnitude(u).value)
  {
    TrimNoop(u);
    NumberOfTrimmedPlain(u);
  }

  /** Number() reads back every integer the templates render. */
  lemma NumberOfRoundTrip(n: int)
    ensures NumberOf(IntToString(n)) == Num(n)
  {
    var m: nat := if n < 0 then -n else n;
    var digits := NatToString(m);
    NatToStringValue(m);
    assert DecimalMagnitude(digits) == Some(m);
    assert IsDigit(digits[0]) && IsDigit(digits[|digits| - 1]);
    if n < 0 {
      assert IntToString(n) == "-" + digits;
      NumberOfMinus(digits);
    } else {
      assert IntToString(n) == digits;
      NumberOfPlain(digits);
    }
  }

  /** s.replace(/from/g, to) for single characters. */
  function ReplaceChar(s: string, from: char, to: char): (r: string)
    ensures |r| == |s|
    ensures forall k :: 0 <= k < |s| ==> r[k] == (if s[k] == from then to else s[k])
    ensures from != to ==> from !in r
  {
    if |s| == 0 then ""
    else ReplaceChar(s[..|s| - 1], from, to) + [if s[|s| - 1] == from then to else s[|s| - 1]]
  }

  /** a <= b in code-point order: MongoDB's binary comparison of UTF-8 strings. */
  predicate StrLe(a: string, b: string) {
    |a| == 0 || (|b| > 0 && (a[0] < b[0] || (a[0] == b[0] && StrLe(a[1..], b[1..]))))
  }

  /** The string order is total: any two keys are comparable. */
  lemma {:induction false} StrLeTotal(a: string, b: string)
    ensures StrLe(a, b) || StrLe(b, a)
  {
    if |a| > 0 && |b| > 0 && a[0] == b[0] {
      StrLeTotal(a[1..], b[1..]);
    }
  }

  /** The string order is transitive. */
  lemma {:induction false} StrLeTransitive(a: string, b: string, c: string)
    requires StrLe(a, b) && StrLe(b, c)
    ensures StrLe(a, c)
  {
    if |a| > 0 && a[0] == b[0] && b[0] == c[0] {
      StrLeTransitive(a[1..], b[1..], c[1..]);
    }
  }
}
