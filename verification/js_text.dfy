/**
 * The pieces of JavaScript's built-in string and number behaviour that the
 * request entity relies on: `parseInt` with no radix argument, the
 * conversion of an integer Number to its decimal string, and upper-casing.
 */
module JsText {
  import opened Wrappers

  /** StrWhiteSpaceChar of ECMAScript: the WhiteSpace and LineTerminator code points. */
  predicate IsStrWhiteSpace(c: char) {
    || c == '\t' || c == '\U{000B}' || c == '\U{000C}' || c == ' ' || c == '\U{00A0}' || c == '\U{FEFF}'
    || c == '\n' || c == '\r' || c == '\U{2028}' || c == '\U{2029}'
    || c == '\U{1680}' || ('\U{2000}' <= c <= '\U{200A}') || c == '\U{202F}' || c == '\U{205F}' || c == '\U{3000}'
  }

  predicate IsDecimalDigit(c: char) {
    '0' <= c <= '9'
  }

  predicate AllDecimal(s: string) {
    forall i :: 0 <= i < |s| ==> IsDecimalDigit(s[i])
  }

  /** A digit of the given radix; parseInt only ever uses radix 10 or 16. */
  predicate IsRadixDigit(c: char, radix: nat) {
    if radix == 16 then IsDecimalDigit(c) || 'a' <= c <= 'f' || 'A' <= c <= 'F'
    else IsDecimalDigit(c)
  }

  function DigitValue(c: char): (d: nat)
    ensures IsDecimalDigit(c) ==> d == c as int - '0' as int
    ensures d < 16
  {
    if IsDecimalDigit(c) then c as int - '0' as int
    else if 'a' <= c <= 'f' then c as int - 'a' as int + 10
    else if 'A' <= c <= 'F' then c as int - 'A' as int + 10
    else 0
  }

  /** The decimal digit character for d. */
  function DecimalChar(d: nat): (c: char)
    requires d < 10
    ensures IsDecimalDigit(c) && DigitValue(c) == d
  {
    ('0' as int + d) as char
  }

  /** The string with its leading StrWhiteSpace removed. */
  function TrimStart(s: string): (t: string)
    ensures |t| <= |s| && t == s[|s| - |t|..]
    ensures t == [] || !IsStrWhiteSpace(t[0])
  {
    if s != [] && IsStrWhiteSpace(s[0]) then TrimStart(s[1..]) else s
  }

  /** Length of the longest prefix of s made of digits of the radix. */
  function DigitRunLength(s: string, radix: nat): (n: nat)
    ensures n <= |s|
    ensures forall i :: 0 <= i < n ==> IsRadixDigit(s[i], radix)
    ensures n == |s| || !IsRadixDigit(s[n], radix)
  {
    if s != [] && IsRadixDigit(s[0], radix) then 1 + DigitRunLength(s[1..], radix) else 0
  }

  /** The value of a digit string, most significant digit first. */
  function DigitsValue(s: string, radix: nat): nat
  {
    if s == [] then 0
    else (if radix == 16 then 16 else 10) * DigitsValue(s[..|s| - 1], radix) + DigitValue(s[|s| - 1])
  }

  /**
   * What parseInt reads once the white space, the sign and a "0x" prefix
   * have been taken off: the sign, the radix, and the text the digits start in.
   */
  datatype Numeral = Numeral(negative: bool, radix: nat, digits: string)

  /** Splits off an optional '+' or '-' sign. */
  function ScanSign(t: string): (n: Numeral)
    ensures n.radix == 10
  {
    if t != [] && t[0] == '-' then Numeral(true, 10, t[1..])
    else if t != [] && t[0] == '+' then Numeral(false, 10, t[1..])
    else Numeral(false, 10, t)
  }

  /** Switches to radix 16 on a "0x" or "0X" prefix. */
  function ScanRadix(n: Numeral): Numeral {
    var u := n.digits;
    if |u| >= 2 && u[0] == '0' && (u[1] == 'x' || u[1] == 'X') then n.(radix := 16, digits := u[2..])
    else n
  }

  function ScanNumeral(s: string): Numeral {
    ScanRadix(ScanSign(TrimStart(s)))
  }

  /**
   * `parseInt(s)` with no radix, for s already converted to a string:
   * None stands for NaN. The Number's rounding of values beyond 2^53 is
   * not modelled, and -0 is 0.
   */
  function ParseInt(s: string): (r: Option<int>)
  {
    var n := ScanNumeral(s);
    var k := DigitRunLength(n.digits, n.radix);
    if k == 0 then None
    else
      var magnitude: int := DigitsValue(n.digits[..k], n.radix);
      Some(if n.negative then -magnitude else magnitude)
  }

  /** The decimal rendering of a natural number, without leading zeros. */
  function NatToString(n: nat): (s: string)
    ensures |s| > 0 && AllDecimal(s)
    ensures s[0] == '0' ==> n == 0
    decreases n
  {
    if n < 10 then [DecimalChar(n)] else NatToString(n / 10) + [DecimalChar(n % 10)]
  }

  /** `String(n)` for an integer Number n (exponent notation above 10^21 is not modelled). */
  function IntToString(n: int): (s: string)
    ensures |s| > 0
    ensures n >= 0 ==> AllDecimal(s)
    ensures n < 0 ==> s[0] == '-' 
  {
    if n < 0 then "-" + NatToString(-n) else NatToString(n)
  }

  /** Reading a rendered natural number gives the number back. */
  lemma {:induction false} DigitsValueOfNatToString(n: nat)
    ensures DigitsValue(NatToString(n), 10) == n
    decreases n
  {
    var s := NatToString(n);
    if n >= 10 {
      DigitsValueOfNatToString(n / 10);
      assert s[..|s| - 1] == NatToString(n / 10);
    }
  }

  /** A run of radix digits followed by a non-digit is exactly the run. */
  lemma {:induction false} DigitRunOfRun(d: string, t: string, radix: nat)
    requires forall i :: 0 <= i < |d| ==> IsRadixDigit(d[i], radix)
    requires t == [] || !IsRadixDigit(t[0], radix)
    ensures DigitRunLength(d + t, radix) == |d|
  {
    if d != [] {
      assert (d + t)[1..] == d[1..] + t;
      assert (d + t)[0] == d[0];
      DigitRunOfRun(d[1..], t, radix);
    } else {
      assert d + t == t;
    }
  }

  /** "-" when negative, "" otherwise. */
  function SignText(negative: bool): string {
    if negative then "-" else ""
  }

  function Signed(negative: bool, m: nat): int {
    if negative then -(m as int) else m
  }

  /**
   * An optional minus sign, a run of decimal digits, then text that does not
   * continue the run: parseInt reads the run in radix 10. A lone "0" followed
   * by 'x' or 'X' would be read as a hexadecimal prefix instead.
   */
  lemma ParseIntOfDigitRun(negative: bool, d: string, t: string)
    requires d != [] && AllDecimal(d)
    requires t == [] || !IsDecimalDigit(t[0])
    requires d == "0" ==> t == [] || (t[0] != 'x' && t[0] != 'X')
    ensures ParseInt(SignText(negative) + (d + t)) == Some(Signed(negative, DigitsValue(d, 10)))
  {
    var u := d + t;
    ScanOfDigitRun(negative, d, t);
    DigitRunOfRun(d, t, 10);
    assert u[..|d|] == d;
    ParseIntOfScan(SignText(negative) + u, Numeral(negative, 10, u), |d|);
  }

  /** What parseInt gives once the numeral and the length of its digit run are known. */
  lemma ParseIntOfScan(s: string, n: Numeral, k: nat)
    requires ScanNumeral(s) == n
    requires 0 < k <= |n.digits| && DigitRunLength(n.digits, n.radix) == k
    ensures ParseInt(s) == Some(Signed(n.negative, DigitsValue(n.digits[..k], n.radix)))
  {
  }

  lemma ScanOfDigitRun(negative: bool, d: string, t: string)
    requires d != [] && AllDecimal(d)
    requires t == [] || !IsDecimalDigit(t[0])
    requires d == "0" ==> t == [] || (t[0] != 'x' && t[0] != 'X')
    ensures ScanNumeral(SignText(negative) + (d + t)) == Numeral(negative, 10, d + t)
  {
    var u := d + t;
    var s := SignText(negative) + u;
    assert u[0] == d[0];
    ScanSignOf(negative, u);
    assert TrimStart(s) == s by {
      NotWhiteSpace(s[0]);
    }
    assert ScanRadix(Numeral(negative, 10, u)) == Numeral(negative, 10, u) by {
      if |u| >= 2 && u[0] == '0' {
        if |d| >= 2 {
          assert u[1] == d[1];
        } else {
          assert d == "0";
          assert u[1] == t[0];
        }
      }
    }
  }

  /** An optional minus sign in front of text that does not start with a sign. */
  lemma ScanSignOf(negative: bool, u: string)
    requires u != [] && u[0] != '-' && u[0] != '+'
    ensures ScanSign(SignText(negative) + u) == Numeral(negative, 10, u)
  {
    var s := SignText(negative) + u;
    if negative {
      assert s[0] == '-' && s[1..] == u;
    } else {
      assert s == u;
    }
  }

  /** Digits and signs are not white space. */
  lemma NotWhiteSpace(c: char)
    requires c == '-' || IsDecimalDigit(c)
    ensures !IsStrWhiteSpace(c)
  {
  }

  predicate AllHex(s: string) {
    forall i :: 0 <= i < |s| ==> IsRadixDigit(s[i], 16)
  }

  /**
   * An optional minus sign, "0x" or "0X", a run of hexadecimal digits, then
   * text that does not continue the run: with no radix argument parseInt
   * reads the run in radix 16.
   */
  lemma ParseIntOfHexRun(negative: bool, x: char, h: string, t: string)
    requires x == 'x' || x == 'X'
    requires h != [] && AllHex(h)
    requires t == [] || !IsRadixDigit(t[0], 16)
    ensures ParseInt(SignText(negative) + (['0', x] + (h + t))) == Some(Signed(negative, DigitsValue(h, 16)))
  {
    var v := h + t;
    var u := ['0', x] + v;
    var s := SignText(negative) + u;
    assert ScanNumeral(s) == Numeral(negative, 16, v) by {
      ScanOfHexRun(negative, x, v);
    }
    DigitRunOfRun(h, t, 16);
    assert v[..|h|] == h;
    ParseIntOfScan(s, Numeral(negative, 16, v), |h|);
  }

  lemma ScanOfHexRun(negative: bool, x: char, v: string)
    requires x == 'x' || x == 'X'
    ensures ScanNumeral(SignText(negative) + (['0', x] + v)) == Numeral(negative, 16, v)
  {
    var u := ['0', x] + v;
    var s := SignText(negative) + u;
    assert u[0] == '0' && u[1] == x && u[2..] == v;
    ScanSignOf(negative, u);
    assert TrimStart(s) == s by {
      NotWhiteSpace(s[0]);
    }
  }

  /**
   * Text whose first character is neither white space, a sign nor a digit
   * reads as NaN, and so does the empty string.
   */
  lemma ParseIntNaN(s: string)
    requires s != [] ==> !IsStrWhiteSpace(s[0]) && s[0] != '-' && s[0] != '+' && !IsDecimalDigit(s[0])
    ensures ParseInt(s) == None
  {
    assert TrimStart(s) == s;
    assert ScanSign(s) == Numeral(false, 10, s);
    assert ScanRadix(ScanSign(s)) == Numeral(false, 10, s);
  }

  /** `parseInt(undefined)`: the text "undefined" reads as NaN. */
  lemma ParseIntUndefined()
    ensures ParseInt("undefined") == None
  {
    ParseIntNaN("undefined");
  }

  /** A non-empty digit string reads as its decimal value. */
  lemma ParseIntOfDigits(d: string)
    requires d != [] && AllDecimal(d)
    ensures ParseInt(d) == Some(DigitsValue(d, 10))
  {
    ParseIntOfDigitRun(false, d, []);
    assert SignText(false) + (d + []) == d;
  }

  /**
   * `parseInt(String(n) + t)` is n whenever t does not continue the digits:
   * the round trip the port setter relies on when it is handed a Number,
   * and the one `fullUrl` relies on when it reads back a rendered port.
   * A "0" followed by 'x' or 'X' would be read as a hexadecimal prefix.
   */
  lemma ParseIntOfDecimal(n: int, t: string)
    requires t == [] || !IsDecimalDigit(t[0])
    requires n == 0 ==> t == [] || (t[0] != 'x' && t[0] != 'X')
    ensures ParseInt(IntToString(n) + t) == Some(n)
  {
    var m: nat := if n < 0 then -n else n;
    var d := NatToString(m);
    ParseIntOfDigitRun(n < 0, d, t);
    DigitsValueOfNatToString(m);
    IntToStringSplits(n, t);
  }

  /** `String(n)` is an optional minus sign followed by the digits of |n|. */
  lemma IntToStringSplits(n: int, t: string)
    ensures IntToString(n) + t == SignText(n < 0) + (NatToString(if n < 0 then -n else n) + t)
    ensures NatToString(if n < 0 then -n else n) == "0" ==> n == 0
  {
    var d := NatToString(if n < 0 then -n else n);
    assert d == "0" ==> d[0] == '0';
  }

  /** Leading white space never changes what parseInt reads. */
  lemma ParseIntSkipsWhiteSpace(w: string, s: string)
    requires forall i :: 0 <= i < |w| ==> IsStrWhiteSpace(w[i])
    ensures ParseInt(w + s) == ParseInt(s)
  {
    TrimStartSkips(w, s);
    assert ScanNumeral(w + s) == ScanNumeral(s);
    ParseIntReadsScan(w + s, s);
  }

  /** parseInt depends on its input only through the scanned numeral. */
  lemma ParseIntReadsScan(a: string, b: string)
    requires ScanNumeral(a) == ScanNumeral(b)
    ensures ParseInt(a) == ParseInt(b)
  {
  }

  lemma {:induction false} TrimStartSkips(w: string, s: string)
    requires forall i :: 0 <= i < |w| ==> IsStrWhiteSpace(w[i])
    ensures TrimStart(w + s) == TrimStart(s)
  {
    if w != [] {
      assert (w + s)[1..] == w[1..] + s;
      TrimStartSkips(w[1..], s);
    } else {
      assert w + s == s;
    }
  }

  /** ASCII upper-casing of one character. */
  function UpperChar(c: char): char {
    if 'a' <= c <= 'z' then (c as int - 32) as char else c
  }

  predicate IsUpperCase(s: string) {
    forall i :: 0 <= i < |s| ==> !('a' <= s[i] <= 'z')
  }

  /** Same length and the same letters once both are upper-cased. */
  predicate EqualIgnoringCase(a: string, b: string) {
    |a| == |b| && forall i :: 0 <= i < |a| ==> UpperChar(a[i]) == UpperChar(b[i])
  }

  /**
   * `s.toUpperCase()` restricted to ASCII letters. The result is upper case and
   * equal to s ignoring case, which determines it uniquely.
   */
  function ToUpperCase(s: string): (u: string)
    ensures IsUpperCase(u) && EqualIgnoringCase(u, s)
  {
    seq(|s|, i requires 0 <= i < |s| => UpperChar(s[i]))
  }

  /** Upper case plus equality ignoring case pins the value down. */
  lemma UpperCaseIsUnique(u: string, v: string)
    requires IsUpperCase(u) && IsUpperCase(v) && EqualIgnoringCase(u, v)
    ensures u == v
  {
    forall i | 0 <= i < |u|
      ensures u[i] == v[i]
    {
      assert UpperChar(u[i]) == u[i] && UpperChar(v[i]) == v[i];
    }
  }

  /** `String(n)` for the port numbers used in the examples. */
  lemma RenderedPortExamples()
    ensures IntToString(80) == "80"
    ensures IntToString(443) == "443"
    ensures IntToString(8443) == "8443"
    ensures IntToString(8080) == "8080"
  {
    assert NatToString(8) == "8";
    assert NatToString(4) == "4";
    assert NatToString(44) == "44";
    assert NatToString(84) == "84";
    assert NatToString(844) == "844";
    assert NatToString(80) == "80";
    assert NatToString(808) == "808";
  }
}
