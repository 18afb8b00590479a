/**
 * The text form of a 32-bit `int`: `Int32.ToString()` and `int.TryParse`
 * with the default number style (leading and trailing white space, an
 * optional leading sign, decimal digits), under the invariant culture.
 */
module Int32Text {
  import opened Wrappers

  const INT32_MIN: int := -0x8000_0000
  const INT32_MAX: int := 0x7FFF_FFFF

  /** C#'s `int`. */
  type Int32 = x: int | INT32_MIN <= x <= INT32_MAX

  predicate IsDigit(ch: char) {
    '0' <= ch <= '9'
  }

  predicate AllDigits(s: string) {
    forall i :: 0 <= i < |s| ==> IsDigit(s[i])
  }

  /** The white space the number parser skips: U+0009 to U+000D and U+0020. */
  predicate IsWhite(ch: char) {
    ch == ' ' || '\t' <= ch <= '\r'
  }

  function DigitChar(d: nat): (ch: char)
    requires d < 10
    ensures IsDigit(ch)
  {
    (48 + d) as char
  }

  function DigitValue(ch: char): (d: nat)
    requires IsDigit(ch)
    ensures d < 10
  {
    ch as int - 48
  }

  /** Decimal digits of `n`, most significant first, with no leading zero. */
  function NatDigits(n: nat): (s: string)
    ensures |s| > 0 && AllDigits(s)
    ensures s[0] == '0' ==> n == 0
  {
    if n < 10 then [DigitChar(n)] else NatDigits(n / 10) + [DigitChar(n % 10)]
  }

  /** The number a string of decimal digits denotes. */
  function DigitsValue(s: string): nat
    requires AllDigits(s)
  {
    if |s| == 0 then 0 else DigitsValue(s[..|s| - 1]) * 10 + DigitValue(s[|s| - 1])
  }

  /** `Int32.ToString()`: an optional minus sign followed by the digits of the magnitude. */
  function Format(n: Int32): string {
    if n < 0 then "-" + NatDigits(-(n as int)) else NatDigits(n)
  }

  function TrimStart(s: string): (t: string)
    ensures |t| <= |s| && t == s[|s| - |t|..]
    ensures |t| > 0 ==> !IsWhite(t[0])
  {
    if |s| > 0 && IsWhite(s[0]) then TrimStart(s[1..]) else s
  }

  function TrimEnd(s: string): (t: string)
    ensures |t| <= |s| && t == s[..|t|]
    ensures |t| > 0 ==> !IsWhite(t[|t| - 1])
  {
    if |s| > 0 && IsWhite(s[|s| - 1]) then TrimEnd(s[..|s| - 1]) else s
  }

  /** The value a signed magnitude denotes, when it fits in an `int`. */
  function Signed(negative: bool, digits: string): Option<Int32>
    requires AllDigits(digits)
  {
    var v: int := if negative then 0 - DigitsValue(digits) as int else DigitsValue(digits);
    if INT32_MIN <= v <= INT32_MAX then Some(v) else None
  }

  /** The text without leading and trailing white space. */
  function Trimmed(s: string): string {
    TrimEnd(TrimStart(s))
  }

  /** Text that denotes `v`: an optional `+` or `-` followed by one or more decimal digits. */
  predicate SignedDigits(t: string, v: int) {
    || (|t| > 0 && AllDigits(t) && v == DigitsValue(t))
    || (|t| > 1 && t[0] == '+' && AllDigits(t[1..]) && v == DigitsValue(t[1..]))
    || (|t| > 1 && t[0] == '-' && AllDigits(t[1..]) && v == 0 - DigitsValue(t[1..]))
  }

  /**
   * `int.TryParse(s, out v)` on a non-null string: `Some(v)` when it returns
   * true, which is when the text without surrounding white space denotes a
   * value in the range of `int`.
   */
  function Parse(s: string): Option<Int32> {
    var t := Trimmed(s);
    if |t| > 0 && (t[0] == '-' || t[0] == '+') then
      if |t| > 1 && AllDigits(t[1..]) then Signed(t[0] == '-', t[1..]) else None
    else if |t| > 0 && AllDigits(t) then Signed(false, t)
    else None
  }

  /** `int.TryParse` on a nullable string: null never parses. */
  function TryParse(s: Option<string>): (r: Option<Int32>)
    ensures s.None? ==> r.None?
  {
    match s
    case None => None
    case Some(t) => Parse(t)
  }

  lemma {:induction false} DigitsValueOfNatDigits(n: nat)
    ensures DigitsValue(NatDigits(n)) == n
  {
    var s := NatDigits(n);
    if n < 10 {
      assert s[..|s| - 1] == [];
    } else {
      assert s[..|s| - 1] == NatDigits(n / 10);
      DigitsValueOfNatDigits(n / 10);
    }
  }

  /** The text `ToString` writes is never empty and never starts or ends with white space. */
  lemma FormatShape(n: Int32)
    ensures |Format(n)| > 0
    ensures !IsWhite(Format(n)[0]) && !IsWhite(Format(n)[|Format(n)| - 1])
    ensures IsDigit(Format(n)[|Format(n)| - 1])
  {
  }

  /** `int.TryParse` reads back what `ToString` writes. */
  lemma ParseFormat(n: Int32)
    ensures Parse(Format(n)) == Some(n)
  {
    var s := Format(n);
    FormatShape(n);
    assert TrimStart(s) == s;
    assert TrimEnd(s) == s;
    assert Trimmed(s) == s;
    if n < 0 {
      assert s[1..] == NatDigits(-(n as int));
      DigitsValueOfNatDigits(-(n as int));
    } else {
      DigitsValueOfNatDigits(n);
    }
  }

  /**
   * `int.TryParse` succeeds exactly on text that, without surrounding white
   * space, is an optional sign and digits denoting a value in range, and it
   * yields that value.
   */
  lemma ParseMeaning(s: string)
    ensures Parse(s).Some? ==> SignedDigits(Trimmed(s), Parse(s).value)
    ensures forall v :: INT32_MIN <= v <= INT32_MAX && SignedDigits(Trimmed(s), v) ==> Parse(s) == Some(v)
  {
    var t := Trimmed(s);
    if |t| > 0 && (t[0] == '-' || t[0] == '+') {
      assert !AllDigits(t) by { assert !IsDigit(t[0]); }
      if |t| > 1 && AllDigits(t[1..]) {
        assert Parse(s) == Signed(t[0] == '-', t[1..]);
      } else {
        assert Parse(s) == None;
        assert forall v :: !SignedDigits(t, v);
      }
    } else if |t| > 0 && AllDigits(t) {
      assert Parse(s) == Signed(false, t);
    } else {
      assert Parse(s) == None;
    }
  }

  /** White space between digits makes the parse fail. */
  lemma ParseRejectsInnerSpace(a: string, w: char, b: string)
    requires |a| > 0 && AllDigits(a) && IsWhite(w) && |b| > 0 && AllDigits(b)
    ensures Parse(a + [w] + b) == None
  {
    var t := a + [w] + b;
    assert TrimStart(t) == t by { assert !IsWhite(t[0]); }
    assert TrimEnd(t) == t by { assert t[|t| - 1] == b[|b| - 1]; }
    assert !AllDigits(t) by { assert t[|a|] == w; }
    assert !AllDigits(t[1..]) by { assert t[1..][|a| - 1] == w; }
  }
}
