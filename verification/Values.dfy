/** Variable values and the inference of their type from text. */
module Values {
  import opened Wrappers

  type I64 = n: int | -0x8000_0000_0000_0000 <= n < 0x8000_0000_0000_0000

  /** A float is kept as the text it was read from; its numeric value is not modelled. */
  datatype Value = Float(source: string) | Int(n: I64) | Text(text: string)

  datatype InferredType = IntType | FloatType | TextType

  // ---------- Decimal digits ----------

  predicate IsDigit(c: char) {
    '0' <= c <= '9'
  }

  predicate DigitsIn(s: string, from: nat, to: nat)
    requires to <= |s|
  {
    forall i | from <= i < to :: IsDigit(s[i])
  }

  predicate AllDigits(s: string) {
    DigitsIn(s, 0, |s|)
  }

  function DigitChar(d: nat): (c: char)
    requires d < 10
    ensures IsDigit(c) && c as int - '0' as int == d
  {
    ('0' as int + d) as char
  }

  function Decimal(s: string): nat
    requires AllDigits(s)
  {
    if s == [] then 0
    else Decimal(s[..|s| - 1]) * 10 + (s[|s| - 1] as int - '0' as int)
  }

  function Digits(n: nat): string {
    if n < 10 then [DigitChar(n)] else Digits(n / 10) + [DigitChar(n % 10)]
  }

  /** `i64::from_str`: an optional sign, at least one digit, and a value that fits. */
  function ParseI64(s: string): Option<I64> {
    var negative := s != [] && s[0] == '-';
    var digits := if s != [] && (s[0] == '-' || s[0] == '+') then s[1..] else s;
    if digits == [] || !AllDigits(digits) then None
    else
      var n := if negative then -(Decimal(digits) as int) else Decimal(digits);
      if -0x8000_0000_0000_0000 <= n < 0x8000_0000_0000_0000 then Some(n) else None
  }

  /** The printed form of an integer. */
  function IntText(n: int): string {
    if n < 0 then ['-'] + Digits(-n) else Digits(n)
  }

  // ---------- Float syntax ----------

  function DigitSpan(s: string): (n: nat)
    ensures n <= |s| && AllDigits(s[..n])
    ensures n < |s| ==> !IsDigit(s[n])
  {
    if s == [] || !IsDigit(s[0]) then 0
    else
      var k := DigitSpan(s[1..]);
      assert s[..k + 1] == [s[0]] + s[1..][..k];
      k + 1
  }

  predicate IsExponent(s: string) {
    var digits := if s != [] && (s[0] == '-' || s[0] == '+') then s[1..] else s;
    digits != [] && AllDigits(digits)
  }

  /** The texts with a decimal point that `f64::from_str` accepts. */
  predicate IsPointFloat(s: string) {
    var t := if s != [] && (s[0] == '-' || s[0] == '+') then s[1..] else s;
    var whole := DigitSpan(t);
    whole < |t| && t[whole] == '.' &&
    var fraction := DigitSpan(t[whole + 1..]);
    var rest := t[whole + 1 + fraction..];
    whole + fraction > 0 &&
    (rest == [] || ((rest[0] == 'e' || rest[0] == 'E') && IsExponent(rest[1..])))
  }

  // ---------- Inference ----------

  predicate IntShaped(s: string) {
    s == "0" || (s != [] && (s[0] == '-' || '1' <= s[0] <= '9') && DigitsIn(s, 1, |s|))
  }

  ghost predicate PointAt(s: string, k: nat) {
    && 1 <= k < |s|
    && (s[0] == '-' || IsDigit(s[0]))
    && s[k] == '.'
    && DigitsIn(s, 1, k) && DigitsIn(s, k + 1, |s|)
    && (s[0] == '0' ==> k == 1)
  }

  /** A sign or a digit, digits, exactly one point, and digits; a leading zero stands alone. */
  ghost predicate FloatShaped(s: string) {
    exists k :: PointAt(s, k)
  }

  method InferType(input: string) returns (r: InferredType)
    ensures r == IntType <==> IntShaped(input)
    ensures r == FloatType <==> FloatShaped(input)
  {
    if |input| == 0 {
      return TextType;
    }
    var i := 1;
    var inferred: InferredType;
    ghost var point := 0;
    if input[0] == '-' {
      inferred := IntType;
    } else if input[0] == '0' {
      if 1 < |input| && input[1] == '.' {
        inferred, point, i := FloatType, 1, 2;
      } else if 1 < |input| {
        return TextType;
      } else {
        inferred := IntType;
      }
    } else if '0' <= input[0] <= '9' {
      inferred := IntType;
    } else {
      return TextType;
    }
    while i < |input|
      invariant 1 <= i <= |input|
      invariant inferred == IntType ==> DigitsIn(input, 1, i) && (input[0] == '0' ==> |input| == 1)
      invariant inferred == FloatType ==>
                  && 1 <= point < i && input[point] == '.' && (input[0] == '0' ==> point == 1)
                  && DigitsIn(input, 1, point) && DigitsIn(input, point + 1, i)
      invariant inferred != TextType
    {
      var byte := input[i];
      if byte == '.' && inferred == IntType {
        inferred, point := FloatType, i;
      } else if '0' <= byte <= '9' {
      } else {
        return TextType;
      }
      i := i + 1;
    }
    assert inferred == FloatType ==> PointAt(input, point);
    return inferred;
  }

  ghost function InferredFrom(s: string): Value {
    if IntShaped(s) then
      match ParseI64(s)
      case Some(n) => Int(n)
      case None => Text(s)
    else if FloatShaped(s) && IsPointFloat(s) then Float(s)
    else Text(s)
  }

  method InferFrom(value: string) returns (r: Value)
    ensures r == InferredFrom(value)
  {
    var inferred := InferType(value);
    match inferred
    case IntType =>
      var parsed := ParseI64(value);
      r := if parsed.Some? then Int(parsed.value) else Text(value);
    case FloatType =>
      assert !IntShaped(value);
      r := if IsPointFloat(value) then Float(value) else Text(value);
    case TextType =>
      r := Text(value);
  }

  /** The number a RANGE bound denotes; Err for anything else. */
  function NumberFrom(s: string): Option<Value> {
    if '.' in s then
      if IsPointFloat(s) then Some(Float(s)) else None
    else
      match ParseI64(s)
      case Some(n) => Some(Int(n))
      case None => None
  }

  // ---------- Inference loses no text ----------

  lemma {:induction false} DigitsRoundTrip(n: nat)
    ensures AllDigits(Digits(n)) && Digits(n) != []
    ensures Decimal(Digits(n)) == n
    ensures Digits(n)[0] == '0' <==> n == 0
  {
    if n >= 10 {
      DigitsRoundTrip(n / 10);
      var s := Digits(n);
      assert s[..|s| - 1] == Digits(n / 10);
    } else {
      assert Digits(n)[..0] == [];
    }
  }

  lemma {:induction false} DecimalRoundTrip(s: string)
    requires s != [] && AllDigits(s) && (s[0] == '0' ==> |s| == 1)
    ensures Digits(Decimal(s)) == s
    ensures Decimal(s) == 0 <==> s[0] == '0'
  {
    if |s| == 1 {
      assert Decimal(s[..0]) == 0;
    } else {
      var most, last := s[..|s| - 1], s[|s| - 1];
      DecimalRoundTrip(most);
      assert most[0] == s[0];
      NextDigit(Decimal(most), last as int - '0' as int);
      assert s == most + [last];
    }
  }

  lemma NextDigit(n: nat, d: nat)
    requires n > 0 && d < 10
    ensures Digits(n * 10 + d) == Digits(n) + [DigitChar(d)]
  {
    assert (n * 10 + d) / 10 == n && (n * 10 + d) % 10 == d;
  }

  /** Reading the printed form of any 64-bit integer gives that integer. */
  lemma InferPrintedInt(n: I64)
    ensures InferredFrom(IntText(n)) == Int(n)
    ensures NumberFrom(IntText(n)) == Some(Int(n))
  {
    var abs: nat := if n < 0 then -(n as int) else n;
    DigitsRoundTrip(abs);
    var s := IntText(n);
    if n < 0 {
      assert s[1..] == Digits(abs);
    } else if n > 0 {
      assert IsDigit(s[0]);
    } else {
      assert s == "0";
    }
    NoPoint(s, abs);
  }

  lemma NoPoint(s: string, abs: nat)
    requires s == Digits(abs) || s == ['-'] + Digits(abs)
    ensures '.' !in s
  {
    DigitsRoundTrip(abs);
  }

  /** A text read as an integer is the printed form of that integer exactly if it does not begin
      with a minus sign and a zero. */
  lemma InferIntKeepsText(s: string, n: I64)
    requires InferredFrom(s) == Int(n)
    ensures IntText(n) == s <==> !("-0" <= s)
  {
    if s[0] == '-' {
      assert ParseI64(s) == Some(n);
      NegativeKeepsText(s, n);
    } else {
      DecimalRoundTrip(s);
    }
  }

  lemma NegativeKeepsText(s: string, n: I64)
    requires |s| > 1 && s[0] == '-' && AllDigits(s[1..]) && n as int == 0 - Decimal(s[1..])
    ensures IntText(n) == s <==> s[1] != '0'
  {
    var digits := s[1..];
    if digits[0] == '0' {
      if IntText(n) == s {
        DigitsRoundTrip(-(n as int));
      }
    } else {
      DecimalRoundTrip(digits);
      assert s == ['-'] + digits;
    }
  }

  /** A digit string becomes an integer exactly if it has no leading zero and fits 64 bits;
      every other digit string, such as a code with leading zeros, stays the text it is. */
  lemma DigitStringInferred(s: string)
    requires s != [] && AllDigits(s)
    ensures InferredFrom(s) == (if (s[0] != '0' || |s| == 1) && Decimal(s) < 0x8000_0000_0000_0000
                                then Int(Decimal(s)) else Text(s))
  {
    if |s| == 1 {
      assert Decimal(s) == Decimal(s[..0]) * 10 + (s[0] as int - '0' as int);
    }
  }

  // ---------- Floats ----------

  lemma {:induction false} DigitSpanIs(s: string, n: nat)
    requires n <= |s| && (forall i | 0 <= i < n :: IsDigit(s[i])) && (n < |s| ==> !IsDigit(s[n]))
    ensures DigitSpan(s) == n
  {
    if n > 0 {
      DigitSpanIs(s[1..], n - 1);
    }
  }

  /** An optional minus sign, digits, a point and digits. */
  function PointText(minus: bool, whole: string, fraction: string): string {
    (if minus then ['-'] else []) + whole + ['.'] + fraction
  }

  lemma PointTextSyntax(minus: bool, whole: string, fraction: string)
    requires AllDigits(whole) && AllDigits(fraction)
    ensures IsPointFloat(PointText(minus, whole, fraction)) <==> whole + fraction != []
  {
    var s := PointText(minus, whole, fraction);
    var t := whole + ['.'] + fraction;
    assert minus ==> s[1..] == t;
    assert !minus ==> s == t;
    assert t[|whole|] == '.' && t[|whole| + 1..] == fraction;
    DigitSpanIs(t, |whole|);
    DigitSpanIs(fraction, |fraction|);
  }

  lemma PointTextShape(minus: bool, whole: string, fraction: string)
    requires AllDigits(whole) && AllDigits(fraction)
    ensures FloatShaped(PointText(minus, whole, fraction))
            <==> minus || (whole != [] && (whole[0] == '0' ==> |whole| == 1))
    ensures !IntShaped(PointText(minus, whole, fraction))
  {
    var s := PointText(minus, whole, fraction);
    var k := |whole| + if minus then 1 else 0;
    assert s[k] == '.';
    assert forall i | k < i < |s| :: s[i] == fraction[i - k - 1];
    assert forall i | 0 <= i < |whole| :: s[i + k - |whole|] == whole[i];
    assert forall i | k - |whole| <= i < k :: s[i] == whole[i - (k - |whole|)];
    if minus || (whole != [] && (whole[0] == '0' ==> |whole| == 1)) {
      assert PointAt(s, k);
    }
    if j :| PointAt(s, j) {
      assert j == k;
    }
  }

  /** Digits, a point and digits, with or without a minus sign, are inferred as a float exactly if
      there is a digit at all and, without the sign, a digit before the point and no zero before
      further digits. */
  lemma PointTextInferred(minus: bool, whole: string, fraction: string)
    requires AllDigits(whole) && AllDigits(fraction)
    ensures var s := PointText(minus, whole, fraction);
            InferredFrom(s)
            == if (if minus then whole + fraction != [] else whole != [] && (whole[0] == '0' ==> |whole| == 1))
               then Float(s) else Text(s)
    ensures var s := PointText(minus, whole, fraction);
            NumberFrom(s) == if whole + fraction != [] then Some(Float(s)) else None
  {
    assert PointText(minus, whole, fraction)[|whole| + if minus then 1 else 0] == '.';
    PointTextSyntax(minus, whole, fraction);
    PointTextShape(minus, whole, fraction);
  }

  lemma PointIsText(s: string, k: nat) returns (minus: bool, whole: string, fraction: string)
    requires PointAt(s, k)
    ensures AllDigits(whole) && AllDigits(fraction) && s == PointText(minus, whole, fraction)
  {
    minus := s[0] == '-';
    var from := if minus then 1 else 0;
    whole, fraction := s[from..k], s[k + 1..];
    assert s == s[..from] + whole + [s[k]] + fraction;
  }

  /** Only such texts are inferred as floats. */
  lemma FloatIsPointText(s: string) returns (minus: bool, whole: string, fraction: string)
    requires InferredFrom(s).Float?
    ensures InferredFrom(s) == Float(s)
    ensures AllDigits(whole) && AllDigits(fraction) && s == PointText(minus, whole, fraction)
  {
    var k: nat :| PointAt(s, k);
    minus, whole, fraction := PointIsText(s, k);
  }

  /** Printing a value that is no float and reading it again gives the value back, except for
      texts that read as numbers. */
  lemma PrintedValueReadsBack(v: Value)
    requires !v.Float?
    ensures InferredFrom(if v.Int? then IntText(v.n) else v.text) == v
            <==> (v.Int? || !((IntShaped(v.text) && ParseI64(v.text).Some?)
                              || (FloatShaped(v.text) && IsPointFloat(v.text))))
  {
    if v.Int? {
      InferPrintedInt(v.n);
    }
  }
}
