/**
 * The handful of PHP value semantics the plugin relies on: `empty()`, the
 * `(string)` cast (also what string interpolation and `.` do), `intval` and
 * WordPress's `absint`, and reading a possibly missing array key.
 *
 * Strings are PHP byte strings; one `char` stands for one byte.
 */
module Php {

  /** A scalar PHP value as it can appear in the option array. */
  datatype Value = Null | Bool(b: bool) | Int(i: int) | Str(s: string)

  /** `$array[$key]`: a missing key reads as null. */
  function Get(m: map<string, Value>, key: string): (v: Value)
    ensures key !in m ==> v == Null
    ensures key in m ==> v == m[key]
  {
    if key in m then m[key] else Null
  }

  /** PHP's `empty($v)`, equivalently `!$v` (falsiness): a scalar is empty
   *  exactly when its text is "" or "0". */
  predicate Empty(v: Value): (e: bool)
    ensures e <==> ToStr(v) == "" || ToStr(v) == "0"
  {
    match v
    case Null => true
    case Bool(b) => !b
    case Int(i) => ZeroText(i); i == 0
    case Str(s) => s == "" || s == "0"
  }

  predicate IsDigit(c: char)
  {
    '0' <= c <= '9'
  }

  function DigitChar(d: nat): (c: char)
    requires d < 10
    ensures IsDigit(c)
  {
    ('0' as int + d) as char
  }

  /** Decimal digits of `n`, most significant first, without leading zeros. */
  function Digits(n: nat): (r: string)
    ensures |r| >= 1
    ensures forall k :: 0 <= k < |r| ==> IsDigit(r[k])
    ensures n < 10 <==> |r| == 1
  {
    if n < 10 then [DigitChar(n)] else Digits(n / 10) + [DigitChar(n % 10)]
  }

  /** The decimal text PHP produces for an integer. */
  function IntToString(i: int): string
  {
    if i < 0 then "-" + Digits(-i) else Digits(i)
  }

  /** `(string) $v`. */
  function ToStr(v: Value): string
  {
    match v
    case Null => ""
    case Bool(b) => if b then "1" else ""
    case Int(i) => IntToString(i)
    case Str(s) => s
  }

  /** `"{$options['key']}"`: an option interpolated into a double-quoted string. */
  function Field(options: map<string, Value>, key: string): string
  {
    ToStr(Get(options, key))
  }

  /** The whitespace PHP skips before a numeric string. */
  predicate IsSpace(c: char)
  {
    c == ' ' || c == '\t' || c == '\n' || c == '\r' || c == '\U{0B}' || c == '\U{0C}'
  }

  function SkipSpaces(s: string): (r: string)
    ensures |r| <= |s| && r == s[|s| - |r|..]
    ensures |r| > 0 ==> !IsSpace(r[0])
  {
    if |s| > 0 && IsSpace(s[0]) then SkipSpaces(s[1..]) else s
  }

  /** Length of the run of decimal digits `s` starts with. */
  function DigitRun(s: string): (n: nat)
    ensures n <= |s|
    ensures forall k :: 0 <= k < n ==> IsDigit(s[k])
    ensures n < |s| ==> !IsDigit(s[n])
  {
    if |s| > 0 && IsDigit(s[0]) then 1 + DigitRun(s[1..]) else 0
  }

  function DigitValue(c: char): nat
    requires IsDigit(c)
  {
    c as int - '0' as int
  }

  /** The value of a string of decimal digits. */
  function DigitsValue(d: string): nat
    requires forall k :: 0 <= k < |d| ==> IsDigit(d[k])
  {
    if |d| == 0 then 0
    else DigitsValue(d[..|d| - 1]) * 10 + DigitValue(d[|d| - 1])
  }

  /** The integer a PHP string converts to: leading whitespace, an optional
   *  sign and the longest run of decimal digits; anything else reads as 0. */
  function StrToInt(s: string): int
  {
    var t := SkipSpaces(s);
    if |t| > 0 && (t[0] == '-' || t[0] == '+') then
      var u := t[1..];
      var n: int := DigitsValue(u[..DigitRun(u)]);
      if t[0] == '-' then -n else n
    else
      DigitsValue(t[..DigitRun(t)])
  }

  /** `intval($v)` / `(int) $v`; every empty value reads as 0. */
  function IntVal(v: Value): (n: int)
    ensures Empty(v) ==> n == 0
  {
    match v
    case Null => 0
    case Bool(b) => if b then 1 else 0
    case Int(i) => i
    case Str(s) => BlankOrZeroTextReadsZero(); StrToInt(s)
  }

  /** The empty strings "" and "0" read as the integer 0. */
  lemma BlankOrZeroTextReadsZero()
    ensures StrToInt("") == 0 && StrToInt("0") == 0
  {
    assert SkipSpaces("") == "";
    DigitsParse(0);
    assert Digits(0) == "0";
  }

  /** WordPress's `absint($v)`: `abs(intval($v))`. */
  function AbsInt(v: Value): (n: nat)
    ensures n == IntVal(v) || n == -IntVal(v)
  {
    var i := IntVal(v);
    if i < 0 then -i else i
  }

  lemma {:induction false} DigitsRoundTrip(n: nat)
    ensures DigitsValue(Digits(n)) == n
    decreases n
  {
    if n >= 10 {
      var d := Digits(n);
      DigitsRoundTrip(n / 10);
      assert d[..|d| - 1] == Digits(n / 10);
    }
  }

  /** A non-empty digit string reads back as its value. */
  lemma {:induction false} DigitStringParse(d: string)
    requires |d| > 0 && forall k :: 0 <= k < |d| ==> IsDigit(d[k])
    ensures StrToInt(d) == DigitsValue(d)
  {
    assert !IsSpace(d[0]);
    assert SkipSpaces(d) == d;
    assert DigitRun(d) == |d|;
    assert d[..|d|] == d;
  }

  /** ... and with a minus sign in front, as its negation. */
  lemma {:induction false} NegativeDigitStringParse(d: string)
    requires |d| > 0 && forall k :: 0 <= k < |d| ==> IsDigit(d[k])
    ensures StrToInt("-" + d) == -(DigitsValue(d) as int)
  {
    var s := "-" + d;
    assert !IsSpace(s[0]);
    assert SkipSpaces(s) == s;
    assert s[1..] == d;
    assert DigitRun(d) == |d|;
    assert d[..|d|] == d;
  }

  /** A digit string reads back as its value. */
  lemma {:induction false} DigitsParse(n: nat)
    ensures StrToInt(Digits(n)) == n
  {
    DigitStringParse(Digits(n));
    DigitsRoundTrip(n);
  }

  lemma {:induction false} NegativeParse(n: nat)
    requires n > 0
    ensures StrToInt("-" + Digits(n)) == -(n as int)
  {
    var d := Digits(n);
    NegativeDigitStringParse(d);
    DigitsRoundTrip(n);
  }

  lemma {:induction false} NegativeTextParse(i: int)
    requires i < 0
    ensures StrToInt(IntToString(i)) == i
  {
    var n: nat := -i;
    assert IntToString(i) == "-" + Digits(n);
    NegativeParse(n);
  }

  lemma {:induction false} NonNegativeTextParse(i: int)
    requires i >= 0
    ensures StrToInt(IntToString(i)) == i
  {
    DigitsParse(i);
  }

  lemma {:induction false} IntToStringParse(i: int)
    ensures StrToInt(IntToString(i)) == i
  {
    if i < 0 {
      NegativeTextParse(i);
    } else {
      NonNegativeTextParse(i);
    }
  }

  /** Reading back the text PHP writes for an integer gives the integer. */
  lemma {:induction false} IntTextRoundTrip(i: int)
    ensures IntVal(Str(ToStr(Int(i)))) == i
  {
    IntToStringParse(i);
  }

  /** The decimal text of an integer is never blank, and is "0" only for zero. */
  lemma ZeroText(i: int)
    ensures IntToString(i) != ""
    ensures IntToString(i) == "0" <==> i == 0
  {
    if i < 0 {
      assert IntToString(i)[0] == '-';
    } else if i >= 10 {
      assert |Digits(i)| > 1;
    } else {
      assert IntToString(i) == [DigitChar(i)];
    }
  }
}
