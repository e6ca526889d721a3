/** The part of JavaScript's number conversions the storefront relies on:
    `Number(s)` on a URL parameter or an input's value, and `n.toString()`
    when writing one back. A number is an integer, a decimal fraction that
    is not an integer, or NaN. `Number` trims white space and recognises an
    optional sign followed by decimal digits with at most one decimal point;
    every other spelling reads as NaN. */
module JsNumber {
  import opened Wrappers
  import Text

  /** The digits after the decimal point of a non-integer: at least one, and
      no trailing zero, so that each value has exactly one spelling. */
  predicate IsFractionDigits(s: string) {
    |s| > 0 && Text.AllDigits(s) && s[|s| - 1] != '0'
  }

  type FractionDigits = s: string | IsFractionDigits(s) witness "5"

  /** `Finite(v)` is the integer v. `Fraction(neg, whole, digits)` is the
      non-integer `whole.digits`, negated when `neg`. */
  datatype Num = Finite(v: int) | Fraction(neg: bool, whole: nat, digits: FractionDigits) | NaN

  /** Truthiness of a number: NaN and 0 are falsy, and a fraction is
      never 0. */
  predicate Truthy(x: Num) {
    (x.Finite? && x.v != 0) || x.Fraction?
  }

  function DigitChar(d: nat): char
    requires d < 10
  {
    "0123456789"[d]
  }

  function DigitValue(c: char): nat
    requires Text.IsDigit(c)
  {
    c as int - '0' as int
  }

  /** Value of a string of decimal digits, most significant first. */
  function DigitsValue(s: string): nat
    requires Text.AllDigits(s)
  {
    if |s| == 0 then 0
    else DigitsValue(s[..|s| - 1]) * 10 + DigitValue(s[|s| - 1])
  }

  function Pow10(n: nat): (r: nat)
    ensures r >= 1
  {
    if n == 0 then 1 else 10 * Pow10(n - 1)
  }

  /** The value of the number as a real. */
  function Value(x: Num): real
    requires !x.NaN?
  {
    match x
    case Finite(v) => v as real
    case Fraction(neg, whole, digits) =>
      var m := whole as real + DigitsValue(digits) as real / Pow10(|digits|) as real;
      if neg then -m else m
  }

  /** The integer just below a non-integer. */
  function Floor(x: Num): int
    requires x.Fraction?
  {
    if x.neg then -(x.whole as int) - 1 else x.whole
  }

  /** A string of n digits denotes less than 10^n. */
  lemma {:induction false} DigitsBelowPow10(s: string)
    requires Text.AllDigits(s)
    ensures DigitsValue(s) < Pow10(|s|)
  {
    if |s| > 0 {
      DigitsBelowPow10(s[..|s| - 1]);
    }
  }

  /** A fraction lies strictly between two consecutive integers, so it never
      equals an integer. */
  lemma FractionBetweenIntegers(x: Num)
    requires x.Fraction?
    ensures Floor(x) as real < Value(x) < (Floor(x) + 1) as real
  {
    var d := x.digits;
    DigitsBelowPow10(d);
    assert DigitsValue(d) >= DigitValue(d[|d| - 1]) > 0;
    ProperQuotient(DigitsValue(d) as real, Pow10(|d|) as real);
  }

  lemma ProperQuotient(a: real, p: real)
    requires 0.0 < a < p
    ensures 0.0 < a / p < 1.0
  {
    var q := a / p;
    assert q * p == a;
    ScaleMonotone(q, 0.0, p);
    ScaleMonotone(1.0, q, p);
  }

  lemma ScaleMonotone(x: real, y: real, p: real)
    requires p > 0.0
    ensures x <= y <==> x * p <= y * p
  {
  }

  /** Decimal spelling of a natural number, without leading zeros. */
  function NatToString(n: nat): (r: string)
    ensures |r| >= 1
    ensures Text.AllDigits(r)
    ensures DigitsValue(r) == n
    ensures |r| > 1 ==> r[0] != '0'
  {
    if n < 10 then [DigitChar(n)]
    else
      var r := NatToString(n / 10) + [DigitChar(n % 10)];
      assert r[..|r| - 1] == NatToString(n / 10);
      r
  }

  /** `x.toString()`, in positional notation. */
  function Show(x: Num): string {
    match x
    case NaN => "NaN"
    case Finite(v) => if v < 0 then "-" + NatToString(-v) else NatToString(v)
    case Fraction(neg, whole, digits) => (if neg then "-" else "") + PointSpelling(NatToString(whole), digits)
  }

  /** Two digit strings around a decimal point. */
  function PointSpelling(w: string, f: string): string {
    w + "." + f
  }

  /** The white space and line terminators `Number` trims: tab, vertical tab,
      form feed, space, no-break space, the byte order mark, the other space
      separators, line feed, carriage return and the line and paragraph
      separators. */
  predicate IsSpace(c: char) {
    var n := c as int;
    n == 0x09 || n == 0x0B || n == 0x0C || n == 0x20 || n == 0xA0 || n == 0xFEFF
    || n == 0x1680 || (0x2000 <= n <= 0x200A) || n == 0x202F || n == 0x205F || n == 0x3000
    || n == 0x0A || n == 0x0D || n == 0x2028 || n == 0x2029
  }

  /** `s.trim()`: the string without leading and trailing white space. */
  function Trim(s: string): (r: string)
    ensures |r| > 0 ==> !IsSpace(r[0]) && !IsSpace(r[|r| - 1])
    ensures |s| > 0 && !IsSpace(s[0]) && !IsSpace(s[|s| - 1]) ==> r == s
    decreases |s|
  {
    if |s| == 0 then s
    else if IsSpace(s[0]) then Trim(s[1..])
    else if IsSpace(s[|s| - 1]) then Trim(s[..|s| - 1])
    else s
  }

  /** `s` without its trailing '0' characters. */
  function DropTrailingZeros(s: string): (r: string)
    ensures |r| <= |s| && r == s[..|r|]
    ensures |r| > 0 ==> r[|r| - 1] != '0'
    ensures forall i :: |r| <= i < |s| ==> s[i] == '0'
  {
    if |s| > 0 && s[|s| - 1] == '0' then DropTrailingZeros(s[..|s| - 1]) else s
  }

  /** The value of an unsigned spelling: digits, or digits with one decimal
      point and at least one digit on either side of it. */
  function Unsigned(neg: bool, body: string): Num {
    var parts := Text.Split(body, '.');
    if |parts| == 1 then
      if |body| > 0 && Text.AllDigits(body) then
        Finite(if neg then -(DigitsValue(body) as int) else DigitsValue(body))
      else NaN
    else if |parts| == 2 && Text.AllDigits(parts[0]) && Text.AllDigits(parts[1]) && |parts[0]| + |parts[1]| > 0 then
      var whole := DigitsValue(parts[0]);
      var digits := DropTrailingZeros(parts[1]);
      if digits == "" then Finite(if neg then -(whole as int) else whole)
      else Fraction(neg, whole, digits)
    else NaN
  }

  /** `Number(s)` for the spellings described above. A blank string is 0. */
  function Parse(s: string): Num {
    var t := Trim(s);
    if t == "" then Finite(0)
    else if t[0] == '-' then Unsigned(true, t[1..])
    else if t[0] == '+' then Unsigned(false, t[1..])
    else Unsigned(false, t)
  }

  /** Reading back a digit string. */
  lemma UnsignedOfDigits(neg: bool, body: string)
    requires |body| > 0 && Text.AllDigits(body)
    ensures Unsigned(neg, body) == Finite(if neg then -(DigitsValue(body) as int) else DigitsValue(body))
  {
    assert '.' !in body by {
      forall i | 0 <= i < |body| ensures body[i] != '.' {
        assert Text.IsDigit(body[i]);
      }
    }
  }

  /** Splitting digits around a point at the point gives the two digit
      strings. */
  lemma SplitAtPoint(w: string, f: string)
    requires Text.AllDigits(w) && Text.AllDigits(f)
    ensures Text.Split(PointSpelling(w, f), '.') == [w, f]
  {
    assert '.' !in w by {
      forall i | 0 <= i < |w| ensures w[i] != '.' {
        assert Text.IsDigit(w[i]);
      }
    }
    assert '.' !in f by {
      forall i | 0 <= i < |f| ensures f[i] != '.' {
        assert Text.IsDigit(f[i]);
      }
    }
    Text.SplitAfterHead(w, '.', f);
    assert w + "." + f == w + ['.'] + f;
  }

  /** Reading back the spelling of a fraction. */
  lemma UnsignedOfFraction(neg: bool, whole: nat, digits: FractionDigits)
    ensures Unsigned(neg, PointSpelling(NatToString(whole), digits)) == Fraction(neg, whole, digits)
  {
    SplitAtPoint(NatToString(whole), digits);
    assert DropTrailingZeros(digits) == digits;
  }

  /** A spelling that starts and ends with a digit, after an optional minus
      sign, is read by `Unsigned`. */
  lemma ParseSigned(neg: bool, body: string)
    requires |body| > 0 && Text.IsDigit(body[0]) && Text.IsDigit(body[|body| - 1])
    ensures Parse((if neg then "-" else "") + body) == Unsigned(neg, body)
  {
    var s := (if neg then "-" else "") + body;
    assert s[|s| - 1] == body[|body| - 1];
    assert !IsSpace(s[0]) && !IsSpace(s[|s| - 1]);
    assert Trim(s) == s;
    if neg {
      assert s[1..] == body;
    } else {
      assert s == body;
    }
  }

  /** Writing a number into a URL and reading it back gives the same number. */
  lemma ParseShow(x: Num)
    ensures Parse(Show(x)) == x
  {
    match x
    case NaN => ParseShowNaN();
    case Finite(v) => ParseShowInteger(v);
    case Fraction(neg, whole, digits) => ParseShowFraction(neg, whole, digits);
  }

  lemma ParseShowNaN()
    ensures Parse(Show(NaN)) == NaN
  {
    var s := Show(NaN);
    assert Trim(s) == s;
    assert Text.Split(s, '.') == [s];
    assert !Text.IsDigit(s[0]);
  }

  lemma ParseShowInteger(v: int)
    ensures Parse(Show(Finite(v))) == Finite(v)
  {
    var digits := NatToString(if v < 0 then -v else v);
    assert Show(Finite(v)) == (if v < 0 then "-" else "") + digits;
    ParseSigned(v < 0, digits);
    UnsignedOfDigits(v < 0, digits);
  }

  lemma ParseShowFraction(neg: bool, whole: nat, digits: FractionDigits)
    ensures Parse(Show(Fraction(neg, whole, digits))) == Fraction(neg, whole, digits)
  {
    var body := PointSpelling(NatToString(whole), digits);
    assert body[0] == NatToString(whole)[0];
    assert body[|body| - 1] == digits[|digits| - 1];
    ParseSigned(neg, body);
    UnsignedOfFraction(neg, whole, digits);
  }

  /** "5.5" reads as the fraction 5.5. */
  lemma ParseFraction()
    ensures Parse("5.5") == Fraction(false, 5, "5")
  {
    assert PointSpelling(NatToString(5), "5") == "5.5";
    ParseSigned(false, "5.5");
    UnsignedOfFraction(false, 5, "5");
  }

  /** Surrounding white space, a plus sign and trailing zeros are ignored:
      " +5.50 " reads as 5.5. */
  lemma ParseTrimsSignAndZeros()
    ensures Parse(" +5.50 ") == Fraction(false, 5, "5")
  {
    TrimExample();
    assert "+5.50"[1..] == "5.50";
    assert Parse(" +5.50 ") == Unsigned(false, "5.50");
    UnsignedExample();
  }

  lemma UnsignedExample()
    ensures Unsigned(false, "5.50") == Fraction(false, 5, "5")
  {
    SplitAtPoint("5", "50");
    assert PointSpelling("5", "50") == "5.50";
    assert DropTrailingZeros("50") == "5";
    assert DigitsValue("5") == 5;
  }

  lemma TrimExample()
    ensures Trim(" +5.50 ") == "+5.50"
  {
    assert " +5.50 "[1..] == "+5.50 ";
    assert "+5.50 "[..5] == "+5.50";
  }

  /** A zero fraction reads as the integer: "3.0" is 3. */
  lemma ParseZeroFraction()
    ensures Parse("3.0") == Finite(3)
  {
    ParseSigned(false, "3.0");
    SplitAtPoint("3", "0");
    assert PointSpelling("3", "0") == "3.0";
    assert DropTrailingZeros("0") == "";
  }

  /** A blank string is 0, and neither a word nor a lone point is a number. */
  lemma ParseBlankAndJunk()
    ensures Parse("") == Finite(0)
    ensures Parse(" ") == Finite(0)
    ensures Parse("abc") == NaN
    ensures Parse(".") == NaN
  {
    assert Trim(" ") == "";
    assert Trim("abc") == "abc";
    assert Text.Split("abc", '.') == ["abc"];
    assert !Text.IsDigit("abc"[0]);
    assert Trim(".") == ".";
    SplitAtPoint("", "");
    assert PointSpelling("", "") == ".";
  }

  /** The nines' complement of a digit string: each digit d becomes 9 - d. */
  function Nines(s: string): (r: string)
    requires Text.AllDigits(s)
    ensures |r| == |s| && Text.AllDigits(r)
  {
    if |s| == 0 then ""
    else Nines(s[..|s| - 1]) + [DigitChar(9 - DigitValue(s[|s| - 1]))]
  }

  lemma {:induction false} NinesValue(s: string)
    requires Text.AllDigits(s)
    ensures DigitsValue(Nines(s)) + DigitsValue(s) == Pow10(|s|) - 1
  {
    if |s| > 0 {
      var r := Nines(s);
      assert r[..|r| - 1] == Nines(s[..|s| - 1]);
      NinesValue(s[..|s| - 1]);
    }
  }

  /** The digits of one minus the fraction `0.d`: as many digits as `d`, and
      together with `d` they make a whole. */
  function Complement(d: FractionDigits): (r: FractionDigits)
    ensures |r| == |d|
    ensures DigitsValue(r) + DigitsValue(d) == Pow10(|d|)
  {
    var p := d[..|d| - 1];
    var r := Nines(p) + [DigitChar(10 - DigitValue(d[|d| - 1]))];
    assert r[..|r| - 1] == Nines(p);
    NinesValue(p);
    r
  }

  /** `x + k` for an integer k: NaN stays NaN, an integer stays an integer,
      and a fraction moves by k, taking the complementary digits when it
      crosses zero. */
  function AddInt(x: Num, k: int): (r: Num)
    ensures r.NaN? <==> x.NaN?
    ensures r.Finite? <==> x.Finite?
    ensures !x.NaN? ==> Value(r) == Value(x) + k as real
  {
    match x
    case NaN => NaN
    case Finite(v) => Finite(v + k)
    case Fraction(neg, whole, digits) =>
      var moved := if neg then whole - k else whole + k;
      if moved >= 0 then
        var r := Fraction(neg, moved, digits);
        r
      else
        var r := Fraction(!neg, -moved - 1, Complement(digits));
        CrossingZero(x, k, r);
        r
  }

  /** A fraction pushed past zero by k has the complementary digits. */
  lemma CrossingZero(x: Num, k: int, r: Num)
    requires x.Fraction? && r.Fraction?
    requires r.neg == !x.neg && |r.digits| == |x.digits|
    requires DigitsValue(r.digits) + DigitsValue(x.digits) == Pow10(|x.digits|)
    requires r.whole as int == (if x.neg then k - x.whole else -(x.whole as int) - k) - 1
    ensures Value(r) == Value(x) + k as real
  {
    var p := Pow10(|x.digits|) as real;
    var c := DigitsValue(r.digits) as real;
    var d := DigitsValue(x.digits) as real;
    ComplementQuotient(c, d, p);
  }

  lemma ComplementQuotient(c: real, d: real, p: real)
    requires p > 0.0 && c + d == p
    ensures c / p == 1.0 - d / p
  {
    var a, b := c / p, d / p;
    assert a * p == c && b * p == d;
    assert (a + b) * p == a * p + b * p;
    ScaleMonotone(a + b, 1.0, p);
    ScaleMonotone(1.0, a + b, p);
  }

  /** `Number(p || d)` for an optional URL parameter `p` and a numeric default. */
  function ParamOr(p: Option<string>, default: int): Num {
    if Wrappers.Truthy(p) then Parse(p.value) else Finite(default)
  }
}
