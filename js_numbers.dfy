/** The two number conversions the scripts rely on: the global `parseInt` on a
    string (decimal only), the `parseInt(x) || d` default idiom, and the
    conversion of an integer to text when it is assigned to `textContent` or
    interpolated into markup. */
module JsNumbers {
  import opened Dom

  predicate IsDigit(c: char) {
    '0' <= c <= '9'
  }

  predicate AllDigits(s: string) {
    forall i :: 0 <= i < |s| ==> IsDigit(s[i])
  }

  function DigitValue(c: char): nat
    requires IsDigit(c)
  {
    (c as int) - ('0' as int)
  }

  function DigitChar(d: nat): (c: char)
    requires d < 10
    ensures IsDigit(c) && DigitValue(c) == d
  {
    (('0' as int) + d) as char
  }

  /** The characters `parseInt` skips before the number: the white space and
      line terminators of ECMAScript (TAB, VT, FF, ZWNBSP, the space separators
      of Unicode category Zs, LF, CR, LS, PS). */
  predicate IsSpace(c: char) {
    || c == '\t' || c == '\n' || c == '\U{000B}' || c == '\U{000C}' || c == '\r'
    || c == ' ' || c == '\U{00A0}' || c == '\U{1680}'
    || ('\U{2000}' <= c <= '\U{200A}')
    || c == '\U{2028}' || c == '\U{2029}' || c == '\U{202F}' || c == '\U{205F}'
    || c == '\U{3000}' || c == '\U{FEFF}'
  }

  function TrimStart(s: string): string {
    if |s| > 0 && IsSpace(s[0]) then TrimStart(s[1..]) else s
  }

  /** Trimming keeps a suffix of the text, which starts with no white space. */
  lemma {:induction false} TrimStartSuffix(s: string)
    ensures var t := TrimStart(s);
      && |t| <= |s| && t == s[|s| - |t|..]
      && (|t| > 0 ==> !IsSpace(t[0]))
  {
    if |s| > 0 && IsSpace(s[0]) {
      TrimStartSuffix(s[1..]);
      var t := TrimStart(s[1..]);
      assert s[1..][|s[1..]| - |t|..] == s[|s| - |t|..];
    }
  }

  /** Length of the run of decimal digits that starts `s`. */
  function DigitRun(s: string): (n: nat)
    ensures n <= |s| && AllDigits(s[..n])
    ensures n < |s| ==> !IsDigit(s[n])
  {
    if |s| > 0 && IsDigit(s[0]) then 1 + DigitRun(s[1..]) else 0
  }

  /** The value of a string of decimal digits, most significant first. */
  function DigitsValue(d: string): nat
    requires AllDigits(d)
  {
    if |d| == 0 then 0 else 10 * DigitsValue(d[..|d| - 1]) + DigitValue(d[|d| - 1])
  }

  /** What follows the optional sign of an already trimmed string. */
  function Unsigned(t: string): string {
    if |t| > 0 && (t[0] == '-' || t[0] == '+') then t[1..] else t
  }

  /** `parseInt(s)` with radix 10: skip leading white space, read an optional
      sign and the longest run of decimal digits; None stands for NaN (no
      digit at all). */
  function ParseInt(s: string): Option<int> {
    var t := TrimStart(s);
    var u := Unsigned(t);
    var n := DigitRun(u);
    var v: int := if n == 0 then 0 else DigitsValue(u[..n]);
    if n == 0 then None
    else if |t| > 0 && t[0] == '-' then Some(-v)
    else Some(v)
  }

  /** `parseInt(el.getAttribute(name))`: a missing attribute is null, which
      `parseInt` reads as the string "null". */
  function ParseIntAttr(a: Option<string>): Option<int> {
    ParseInt(if a.Some? then a.value else "null")
  }

  /** `x || d` when `x` is a number: NaN and 0 are falsy. */
  function OrDefault(x: Option<int>, d: int): (r: int)
    ensures r == d || (x.Some? && r == x.value && r != 0)
    ensures r == d <==> (x.None? || x.value == 0 || x.value == d)
  {
    if x.Some? && x.value != 0 then x.value else d
  }

  function NatToDecimal(n: nat): (s: string)
    ensures |s| > 0 && AllDigits(s)
  {
    if n < 10 then [DigitChar(n)] else NatToDecimal(n / 10) + [DigitChar(n % 10)]
  }

  /** `String(i)` for an integer `i`. */
  function IntToString(i: int): (s: string)
    ensures |s| > 0
  {
    if i < 0 then "-" + NatToDecimal(-i) else NatToDecimal(i)
  }

  lemma {:induction false} DecimalValue(n: nat)
    ensures DigitsValue(NatToDecimal(n)) == n
  {
    if n >= 10 {
      var d := NatToDecimal(n);
      assert d[..|d| - 1] == NatToDecimal(n / 10);
      DecimalValue(n / 10);
    }
  }

  lemma {:induction false} DigitRunOf(d: string, rest: string)
    requires AllDigits(d)
    requires rest == [] || !IsDigit(rest[0])
    ensures DigitRun(d + rest) == |d|
  {
    if d != [] {
      assert (d + rest)[1..] == d[1..] + rest;
      DigitRunOf(d[1..], rest);
    } else {
      assert d + rest == rest;
    }
  }

  /** The magnitude digits of `String(i)`. */
  function Magnitude(i: int): string {
    NatToDecimal(if i < 0 then -i else i)
  }

  lemma DigitIsNotSpace(c: char)
    requires IsDigit(c) || c == '-'
    ensures !IsSpace(c)
  {
  }

  lemma DecimalShape(i: int, rest: string)
    ensures var s := IntToString(i) + rest;
      && TrimStart(s) == s
      && Unsigned(s) == Magnitude(i) + rest
      && (s[0] == '-' <==> i < 0)
  {
    var s := IntToString(i) + rest;
    var d := Magnitude(i);
    if i < 0 {
      assert s == "-" + (d + rest);
      assert s[0] == '-';
    } else {
      assert s == d + rest;
      assert IsDigit(s[0]);
    }
    DigitIsNotSpace(s[0]);
  }

  /** `parseInt` reads back the decimal text of any integer, also when the text
      is followed by something that does not start with a digit ("250ms"). */
  lemma ParseIntOfDecimal(i: int, rest: string)
    requires rest == [] || !IsDigit(rest[0])
    ensures ParseInt(IntToString(i) + rest) == Some(i)
  {
    var d := Magnitude(i);
    DecimalShape(i, rest);
    DigitRunOf(d, rest);
    assert (d + rest)[..|d|] == d;
    DecimalValue(if i < 0 then -i else i);
  }

  lemma ParseIntRoundTrip(i: int)
    ensures ParseInt(IntToString(i)) == Some(i)
  {
    ParseIntOfDecimal(i, []);
    assert IntToString(i) + [] == IntToString(i);
  }

  /** A string without a decimal digit parses to NaN. */
  lemma ParseIntNoDigits(s: string)
    requires forall i :: 0 <= i < |s| ==> !IsDigit(s[i])
    ensures ParseInt(s) == None
  {
    var t := TrimStart(s);
    TrimStartSuffix(s);
    assert forall i :: 0 <= i < |t| ==> t[i] == s[|s| - |t| + i];
    var u := Unsigned(t);
    if |u| > 0 {
      assert u[0] == t[|t| - |u|];
    }
  }

  /** A missing attribute parses to NaN. */
  lemma ParseIntMissing()
    ensures ParseIntAttr(None) == None
  {
    var s := "null";
    assert !IsSpace(s[0]) && !IsDigit(s[0]);
    assert TrimStart(s) == s && Unsigned(s) == s;
    assert DigitRun(s) == 0;
  }
}
