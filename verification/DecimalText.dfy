/** Canonical decimal text to integer minor units and back. */
module DecimalText {
  import opened Outcome
  import opened Rounding

  const MAX_SCALE := 8
  const STORAGE_MAX_FRACTION_DIGITS := 4

  function Pow10(n: nat): (p: nat)
    ensures p >= 1
  {
    if n == 0 then 1 else 10 * Pow10(n - 1)
  }

  lemma {:induction false} Pow10Add(m: nat, n: nat)
    ensures Pow10(m + n) == Pow10(m) * Pow10(n)
  {
    if m > 0 {
      Pow10Add(m - 1, n);
      assert Pow10(m + n) == 10 * Pow10(m - 1 + n);
      assert 10 * (Pow10(m - 1) * Pow10(n)) == (10 * Pow10(m - 1)) * Pow10(n);
    }
  }

  predicate AllDigits(s: string) {
    forall i :: 0 <= i < |s| ==> '0' <= s[i] <= '9'
  }

  /** The integer part: `0`, or digits without a leading zero. */
  predicate CanonicalInteger(s: string) {
    s != [] && AllDigits(s) && (s[0] == '0' ==> |s| == 1)
  }

  datatype Match = NoMatch | Matched(integerPart: string, fractionPart: string)

  function IndexOfDot(s: string): (i: nat)
    ensures i <= |s| && '.' !in s[..i] && (i < |s| ==> s[i] == '.')
  {
    if s == [] || s[0] == '.' then 0
    else
      var i := IndexOfDot(s[1..]);
      assert s[..i + 1] == [s[0]] + s[1..][..i];
      i + 1
  }

  /** The canonical pattern: an integer part and, after a dot, at least one fraction digit. */
  function MatchCanonical(text: string): Match {
    var dot := IndexOfDot(text);
    if dot == |text| then
      if CanonicalInteger(text) then Matched(text, "") else NoMatch
    else if CanonicalInteger(text[..dot]) && |text| > dot + 1 && AllDigits(text[dot + 1..]) then
      Matched(text[..dot], text[dot + 1..])
    else NoMatch
  }

  function Digit(c: char): nat
    requires '0' <= c <= '9'
  {
    (c - '0') as nat
  }

  function DigitsValue(s: string): nat
    requires AllDigits(s)
  {
    if s == [] then 0 else 10 * DigitsValue(s[..|s| - 1]) + Digit(s[|s| - 1])
  }

  function DigitText(n: nat): char
    requires n < 10
  {
    ('0' as int + n) as char
  }

  function NatText(n: nat): string {
    if n < 10 then [DigitText(n)] else NatText(n / 10) + [DigitText(n % 10)]
  }

  function Zeros(n: nat): string {
    seq(n, _ => '0')
  }

  function PadStart(s: string, width: nat): string {
    if |s| >= width then s else Zeros(width - |s|) + s
  }

  function NonNegativeDecimalTextToMinor(text: string, digits: int): Result<int> {
    if !(0 <= digits <= MAX_SCALE) then Err(Validation)
    else match MatchCanonical(text)
      case NoMatch => Err(Validation)
      case Matched(integerPart, fractionPart) =>
        if AllDigits(integerPart + fractionPart) then
          DivideRoundHalfToEven(DigitsValue(integerPart + fractionPart) * Pow10(digits), Pow10(|fractionPart|))
        else Err(Validation)
  }

  function DecimalTextToMinor(text: string, digits: int): Result<int> {
    if text != [] && text[0] == '-' then
      match NonNegativeDecimalTextToMinor(text[1..], digits)
      case Ok(v) => Ok(-v)
      case Err(e) => Err(e)
    else NonNegativeDecimalTextToMinor(text, digits)
  }

  function MinorToDecimalText(minor: int, digits: int): Result<string> {
    if !(0 <= digits <= MAX_SCALE) then Err(Validation)
    else Ok(FormatMinor(minor, digits))
  }

  function WholeText(absolute: nat, digits: nat): string {
    DivModSum(absolute, Pow10(digits));
    NatText(absolute / Pow10(digits))
  }

  function FractionText(absolute: nat, digits: nat): string {
    if digits == 0 then "" else PadStart(NatText(absolute % Pow10(digits)), digits)
  }

  function JoinParts(whole: string, fraction: string): string {
    if fraction == [] then whole else whole + "." + fraction
  }

  function FormatMinor(minor: int, digits: nat): string {
    var body := JoinParts(WholeText(Abs(minor), digits), FractionText(Abs(minor), digits));
    if minor < 0 then "-" + body else body
  }

  /** The text a four-decimal numeric column gives back: the same value padded with zeros. */
  function StoredText(minor: int, digits: nat): string
    requires digits <= STORAGE_MAX_FRACTION_DIGITS
  {
    FormatMinor(minor, digits) + (if digits == 0 then "." else "") + Zeros(STORAGE_MAX_FRACTION_DIGITS - digits)
  }

  // Values of digit strings

  lemma DigitsValueSnoc(s: string, c: char)
    requires AllDigits(s) && '0' <= c <= '9'
    ensures AllDigits(s + [c])
    ensures DigitsValue(s + [c]) == 10 * DigitsValue(s) + Digit(c)
  {
    assert (s + [c])[..|s|] == s;
  }

  lemma Resplit(s: string, t: string)
    requires t != []
    ensures t[..|t| - 1] + [t[|t| - 1]] == t && s + t[..|t| - 1] + [t[|t| - 1]] == s + t
  {
  }

  lemma ShiftDigit(a: int, p: int, tenfold: int, b: int, c: int)
    requires tenfold == 10 * p
    ensures 10 * (a * p + b) + c == a * tenfold + (10 * b + c)
  {
  }

  lemma {:induction false} DigitsValueAppend(s: string, t: string)
    requires AllDigits(s) && AllDigits(t)
    ensures AllDigits(s + t)
    ensures DigitsValue(s + t) == DigitsValue(s) * Pow10(|t|) + DigitsValue(t)
    decreases |t|
  {
    if t == [] {
      AppendNothing(s);
    } else {
      var front := t[..|t| - 1];
      DigitsValueAppend(s, front);
      AppendDigit(s, front, t[|t| - 1]);
      Resplit(s, t);
      assert |t| == |front| + 1;
    }
  }

  lemma AppendNothing(s: string)
    requires AllDigits(s)
    ensures AllDigits(s + []) && DigitsValue(s + []) == DigitsValue(s) * Pow10(0) + DigitsValue([])
  {
    assert s + [] == s;
  }

  lemma AppendDigit(s: string, front: string, c: char)
    requires AllDigits(s) && AllDigits(front) && AllDigits(s + front) && '0' <= c <= '9'
    requires DigitsValue(s + front) == DigitsValue(s) * Pow10(|front|) + DigitsValue(front)
    ensures AllDigits(front + [c]) && AllDigits(s + front + [c])
    ensures DigitsValue(s + front + [c]) == DigitsValue(s) * Pow10(|front| + 1) + DigitsValue(front + [c])
  {
    DigitsValueSnoc(front, c);
    DigitsValueSnoc(s + front, c);
    ShiftDigit(DigitsValue(s), Pow10(|front|), Pow10(|front| + 1), DigitsValue(front), Digit(c));
  }

  lemma {:induction false} NatTextValue(n: nat)
    ensures CanonicalInteger(NatText(n)) && DigitsValue(NatText(n)) == n
    ensures n > 0 ==> NatText(n)[0] != '0'
  {
    DigitChar(n % 10);
    if n < 10 {
      DigitsValueSnoc("", DigitText(n));
      assert "" + [DigitText(n)] == NatText(n);
    } else {
      NatTextValue(n / 10);
      DigitsValueSnoc(NatText(n / 10), DigitText(n % 10));
    }
  }

  lemma DigitChar(n: nat)
    requires n < 10
    ensures '0' <= DigitText(n) <= '9' && Digit(DigitText(n)) == n
    ensures DigitText(n) == '0' <==> n == 0
  {
  }

  lemma {:induction false} NatTextWidth(n: nat, width: nat)
    requires n < Pow10(width)
    ensures |NatText(n)| <= if width == 0 then 1 else width
  {
    if n >= 10 {
      if width == 0 {
        assert false;
      }
      NatTextWidth(n / 10, width - 1);
    }
  }

  lemma {:induction false} ZerosValue(n: nat)
    ensures AllDigits(Zeros(n)) && DigitsValue(Zeros(n)) == 0
  {
    if n > 0 {
      ZerosValue(n - 1);
      assert Zeros(n)[..n - 1] == Zeros(n - 1);
    }
  }

  lemma FractionTextValue(n: nat, width: nat)
    requires width > 0 && n < Pow10(width)
    ensures var t := PadStart(NatText(n), width);
            |t| == width && AllDigits(t) && DigitsValue(t) == n
  {
    NatTextValue(n);
    NatTextWidth(n, width);
    PaddedValue(NatText(n), width - |NatText(n)|);
  }

  lemma PaddedValue(s: string, zeros: nat)
    requires AllDigits(s)
    ensures AllDigits(Zeros(zeros) + s) && DigitsValue(Zeros(zeros) + s) == DigitsValue(s)
  {
    ZerosValue(zeros);
    DigitsValueAppend(Zeros(zeros), s);
  }

  // Parsing

  lemma IndexOfDotAt(s: string, i: nat)
    requires i <= |s| && '.' !in s[..i] && (i < |s| ==> s[i] == '.')
    ensures IndexOfDot(s) == i
  {
    var j := IndexOfDot(s);
    assert forall k :: 0 <= k < i ==> s[..i][k] == s[k];
    assert forall k :: 0 <= k < j ==> s[..j][k] == s[k];
  }

  lemma MatchParts(whole: string, fraction: string)
    requires CanonicalInteger(whole) && AllDigits(fraction)
    ensures MatchCanonical(JoinParts(whole, fraction)) == Matched(whole, fraction)
  {
    var text := JoinParts(whole, fraction);
    assert text[..|whole|] == whole;
    IndexOfDotAt(text, |whole|);
    if fraction != [] {
      assert text[|whole| + 1..] == fraction;
    }
  }

  /** A canonical text parses to the nearest value at the asked scale. */
  lemma ParseParts(whole: string, fraction: string, digits: nat)
    requires CanonicalInteger(whole) && AllDigits(fraction) && digits <= MAX_SCALE
    ensures AllDigits(whole + fraction)
    ensures NonNegativeDecimalTextToMinor(JoinParts(whole, fraction), digits)
            == DivideRoundHalfToEven(DigitsValue(whole + fraction) * Pow10(digits), Pow10(|fraction|))
  {
    MatchParts(whole, fraction);
  }

  lemma FormatParts(minor: nat, digits: nat)
    ensures CanonicalInteger(WholeText(minor, digits)) && AllDigits(FractionText(minor, digits))
    ensures |FractionText(minor, digits)| == digits
    ensures AllDigits(WholeText(minor, digits) + FractionText(minor, digits))
    ensures DigitsValue(WholeText(minor, digits) + FractionText(minor, digits)) == minor
  {
    var p := Pow10(digits);
    DivModSum(minor, p);
    JoinedValue(minor / p, minor % p, digits);
  }

  lemma DivModSum(n: nat, d: nat)
    requires d >= 1
    ensures n == (n / d) * d + n % d && n % d < d && n / d >= 0
  {
  }

  lemma JoinedValue(t: nat, r: nat, digits: nat)
    requires r < Pow10(digits)
    ensures var fraction := if digits == 0 then "" else PadStart(NatText(r), digits);
            && CanonicalInteger(NatText(t)) && AllDigits(fraction) && |fraction| == digits
            && AllDigits(NatText(t) + fraction)
            && DigitsValue(NatText(t) + fraction) == t * Pow10(digits) + r
  {
    NatTextValue(t);
    if digits == 0 {
      assert NatText(t) + "" == NatText(t);
    } else {
      FractionTextValue(r, digits);
      DigitsValueAppend(NatText(t), PadStart(NatText(r), digits));
    }
  }

  /** Printing at one scale and parsing at a smaller one is one banker's rounding. */
  lemma ParseAfterFormatNonNegative(minor: nat, scale: nat, digits: nat)
    requires digits <= scale && digits <= MAX_SCALE
    ensures NonNegativeDecimalTextToMinor(FormatMinor(minor, scale), digits)
            == DivideRoundHalfToEven(minor, Pow10(scale - digits))
  {
    FormatParts(minor, scale);
    var whole, fraction := WholeText(minor, scale), FractionText(minor, scale);
    assert FormatMinor(minor, scale) == JoinParts(whole, fraction);
    ParseParts(whole, fraction, digits);
    ScaleDown(minor, scale, digits);
  }

  lemma ScaleDown(minor: int, scale: nat, digits: nat)
    requires digits <= scale
    ensures DivideRoundHalfToEven(minor * Pow10(digits), Pow10(scale))
            == DivideRoundHalfToEven(minor, Pow10(scale - digits))
  {
    var k, d := Pow10(digits), Pow10(scale - digits);
    Pow10Add(digits, scale - digits);
    HalfToEvenScale(minor, d, k);
    assert k * minor == minor * k;
  }

  lemma FormatSign(minor: int, digits: nat)
    ensures minor < 0 ==> FormatMinor(minor, digits) == "-" + FormatMinor(-minor, digits)
    ensures minor >= 0 ==> FormatMinor(minor, digits) != [] && FormatMinor(minor, digits)[0] != '-'
  {
    FormatParts(Abs(minor), digits);
  }

  lemma ParseAfterFormat(minor: int, scale: nat, digits: nat)
    requires digits <= scale && digits <= MAX_SCALE
    ensures DecimalTextToMinor(FormatMinor(minor, scale), digits) == DivideRoundHalfToEven(minor, Pow10(scale - digits))
  {
    if minor < 0 {
      ParseNegativeFormat(-minor, scale, digits);
    } else {
      FormatSign(minor, scale);
      ParseAfterFormatNonNegative(minor, scale, digits);
      PlainParse(FormatMinor(minor, scale), digits);
    }
  }

  lemma ParseNegativeFormat(minor: int, scale: nat, digits: nat)
    requires minor > 0 && digits <= scale && digits <= MAX_SCALE
    ensures DecimalTextToMinor(FormatMinor(-minor, scale), digits)
            == DivideRoundHalfToEven(-minor, Pow10(scale - digits))
  {
    FormatSign(-minor, scale);
    ParseAfterFormatNonNegative(minor, scale, digits);
    NegatedParse(FormatMinor(minor, scale), digits, minor, Pow10(scale - digits));
  }

  lemma PlainParse(text: string, digits: nat)
    requires text != [] && text[0] != '-'
    ensures DecimalTextToMinor(text, digits) == NonNegativeDecimalTextToMinor(text, digits)
  {
  }

  lemma NegatedParse(body: string, digits: nat, n: int, d: int)
    requires d != 0 && NonNegativeDecimalTextToMinor(body, digits) == DivideRoundHalfToEven(n, d)
    ensures DecimalTextToMinor("-" + body, digits) == DivideRoundHalfToEven(-n, d)
  {
    assert ("-" + body)[1..] == body;
    HalfToEvenIsNearest(n, d);
    HalfToEvenSymmetric(n, d);
  }

  /** Parsing at a smaller scale than the text was printed at gives the nearest value, ties to even. */
  lemma ParseAtSmallerScale(minor: int, scale: nat, digits: nat)
    requires digits <= scale <= MAX_SCALE
    ensures MinorToDecimalText(minor, scale).Ok?
    ensures var parsed := DecimalTextToMinor(MinorToDecimalText(minor, scale).value, digits);
            parsed.Ok? && IsNearestEven(minor, Pow10(scale - digits), parsed.value)
  {
    ParseAfterFormat(minor, scale, digits);
    HalfToEvenIsNearest(minor, Pow10(scale - digits));
  }

  /** Printing then parsing at the same scale gives every integer back. */
  lemma PrintParseRoundTrip(minor: int, digits: nat)
    requires digits <= MAX_SCALE
    ensures MinorToDecimalText(minor, digits).Ok?
    ensures DecimalTextToMinor(MinorToDecimalText(minor, digits).value, digits) == Ok(minor)
  {
    ParseAfterFormat(minor, digits, digits);
    HalfToEvenExact(minor, 1);
  }

  function SignText(minor: int): string {
    if minor < 0 then "-" else ""
  }

  lemma StoredShape(minor: int, digits: nat)
    requires digits <= STORAGE_MAX_FRACTION_DIGITS
    ensures var a := Abs(minor);
            StoredText(minor, digits)
            == SignText(minor) + (WholeText(a, digits) + "."
                                  + (FractionText(a, digits) + Zeros(STORAGE_MAX_FRACTION_DIGITS - digits)))
  {
    var a := Abs(minor);
    FormatParts(a, digits);
    var fraction := FractionText(a, digits);
    assert fraction == [] <==> digits == 0;
  }

  lemma WideShape(minor: int, digits: nat)
    requires digits > 0
    ensures FormatMinor(minor, digits)
            == SignText(minor) + (WholeText(Abs(minor), digits) + "." + FractionText(Abs(minor), digits))
  {
    FormatParts(Abs(minor), digits);
  }

  /** The padded text is the same number printed at the column's scale. */
  lemma StoredTextIsWiderFormat(minor: int, digits: nat)
    requires digits <= STORAGE_MAX_FRACTION_DIGITS
    ensures StoredText(minor, digits)
            == FormatMinor(minor * Pow10(STORAGE_MAX_FRACTION_DIGITS - digits), STORAGE_MAX_FRACTION_DIGITS)
  {
    var q := Pow10(STORAGE_MAX_FRACTION_DIGITS - digits);
    AbsMul(minor, q);
    StoredShape(minor, digits);
    WideShape(minor * q, STORAGE_MAX_FRACTION_DIGITS);
    WiderParts(Abs(minor), digits);
  }

  lemma AbsMul(m: int, q: nat)
    requires q >= 1
    ensures Abs(m * q) == Abs(m) * q
    ensures m * q < 0 <==> m < 0
  {
  }

  lemma WiderParts(a: nat, digits: nat)
    requires digits <= STORAGE_MAX_FRACTION_DIGITS
    ensures var pad := STORAGE_MAX_FRACTION_DIGITS - digits;
            && WholeText(a * Pow10(pad), STORAGE_MAX_FRACTION_DIGITS) == WholeText(a, digits)
            && FractionText(a * Pow10(pad), STORAGE_MAX_FRACTION_DIGITS) == FractionText(a, digits) + Zeros(pad)
  {
    var pad := STORAGE_MAX_FRACTION_DIGITS - digits;
    var p, q := Pow10(digits), Pow10(pad);
    Pow10Add(pad, digits);
    ScaledDivMod(a, p, q);
    PaddedFraction(a % p, digits);
  }

  lemma ScaledDivMod(a: nat, p: nat, q: nat)
    requires p >= 1 && q >= 1
    ensures q * p >= 1
    ensures (a * q) / (q * p) == a / p && (a * q) % (q * p) == (a % p) * q
  {
    var t, r := a / p, a % p;
    assert a == t * p + r;
    assert a * q == t * (q * p) + r * q by {
      assert (t * p) * q == t * (q * p);
    }
    MulLess(r, p, q);
    DivModUnique(a * q, q * p, t, r * q);
  }

  lemma MulLess(r: nat, p: nat, q: nat)
    requires r < p && q >= 1
    ensures r * q < q * p
  {
    MulGap(r, p, q);
    assert p * q == q * p;
  }

  lemma DivModUnique(n: int, d: int, q: int, r: int)
    requires d > 0 && n == q * d + r && 0 <= r < d
    ensures n / d == q && n % d == r
  {
    var q', r' := n / d, n % d;
    assert n == q' * d + r';
    if q < q' {
      MulGap(q, q', d);
    } else if q' < q {
      MulGap(q', q, d);
    }
  }

  lemma PaddedFraction(r: nat, digits: nat)
    requires digits <= STORAGE_MAX_FRACTION_DIGITS && r < Pow10(digits)
    ensures var pad := STORAGE_MAX_FRACTION_DIGITS - digits;
            PadStart(NatText(r * Pow10(pad)), STORAGE_MAX_FRACTION_DIGITS)
            == (if digits == 0 then "" else PadStart(NatText(r), digits)) + Zeros(pad)
  {
    var pad := STORAGE_MAX_FRACTION_DIGITS - digits;
    Pow10Add(pad, digits);
    MulLess(r, Pow10(digits), Pow10(pad));
    FractionTextValue(r * Pow10(pad), STORAGE_MAX_FRACTION_DIGITS);
    ZerosValue(pad);
    if digits == 0 {
      SameDigits(PadStart(NatText(r * Pow10(pad)), STORAGE_MAX_FRACTION_DIGITS), Zeros(pad));
      assert "" + Zeros(pad) == Zeros(pad);
    } else {
      FractionTextValue(r, digits);
      DigitsValueAppend(PadStart(NatText(r), digits), Zeros(pad));
      SameDigits(PadStart(NatText(r * Pow10(pad)), STORAGE_MAX_FRACTION_DIGITS),
                 PadStart(NatText(r), digits) + Zeros(pad));
    }
  }

  lemma PrefixAndLast(s: string, n: nat)
    requires |s| == n + 1
    ensures s == s[..n] + [s[n]]
  {
  }

  lemma LastDigitsAgree(a: nat, c: char, b: nat, d: char)
    requires '0' <= c <= '9' && '0' <= d <= '9' && 10 * a + Digit(c) == 10 * b + Digit(d)
    ensures a == b && c == d
  {
  }

  /** Digit strings of one length are determined by their value. */
  lemma {:induction false} SameDigits(s: string, t: string)
    requires AllDigits(s) && AllDigits(t) && |s| == |t| && DigitsValue(s) == DigitsValue(t)
    ensures s == t
  {
    if s != [] {
      var n := |s| - 1;
      LastDigitsAgree(DigitsValue(s[..n]), s[n], DigitsValue(t[..n]), t[n]);
      SameDigits(s[..n], t[..n]);
      PrefixAndLast(s, n);
      PrefixAndLast(t, n);
    }
  }

  /** What the database gives back for a stored amount parses to that amount again. */
  lemma StoredRoundTrip(minor: int, digits: nat)
    requires digits <= STORAGE_MAX_FRACTION_DIGITS
    ensures DecimalTextToMinor(StoredText(minor, digits), digits) == Ok(minor)
  {
    StoredTextIsWiderFormat(minor, digits);
    WideRoundTrip(minor, digits, STORAGE_MAX_FRACTION_DIGITS);
  }

  /** Printed with more decimals than needed, an amount parses back. */
  lemma WideRoundTrip(minor: int, digits: nat, scale: nat)
    requires digits <= scale <= MAX_SCALE
    ensures DecimalTextToMinor(FormatMinor(minor * Pow10(scale - digits), scale), digits) == Ok(minor)
  {
    var p := Pow10(scale - digits);
    ParseAfterFormat(minor * p, scale, digits);
    HalfToEvenExact(minor, p);
  }

  // Every text, printed by us or not

  /** Digits without a needless leading zero and, after a dot, any number of fraction digits but none. */
  ghost predicate IsDecimal(text: string, whole: string, fraction: string) {
    && whole != [] && (forall i :: 0 <= i < |whole| ==> '0' <= whole[i] <= '9') && (|whole| > 1 ==> whole[0] != '0')
    && (forall i :: 0 <= i < |fraction| ==> '0' <= fraction[i] <= '9')
    && text == if fraction == [] then whole else whole + "." + fraction
  }

  lemma MatchExactlyWhen(text: string, whole: string, fraction: string)
    ensures MatchCanonical(text) == Matched(whole, fraction) <==> IsDecimal(text, whole, fraction)
  {
    if MatchCanonical(text) == Matched(whole, fraction) {
      var dot := IndexOfDot(text);
      if dot < |text| {
        assert text == text[..dot] + [text[dot]] + text[dot + 1..];
      }
    }
    if IsDecimal(text, whole, fraction) {
      MatchParts(whole, fraction);
    }
  }

  /** A decimal text parses to the nearest value at the scale asked for, ties to even. */
  lemma ParsesToNearest(text: string, whole: string, fraction: string, digits: int, v: int)
    requires IsDecimal(text, whole, fraction)
    ensures NonNegativeDecimalTextToMinor(text, digits) == Ok(v) <==>
            && 0 <= digits <= 8
            && IsNearestEven(DigitsValue(whole + fraction) * Pow10(digits), Pow10(|fraction|), v)
  {
    MatchExactlyWhen(text, whole, fraction);
    if 0 <= digits <= 8 {
      NearestIs(DigitsValue(whole + fraction) * Pow10(digits), Pow10(|fraction|), v);
    }
  }

  lemma NearestIs(n: int, d: int, v: int)
    requires d != 0
    ensures DivideRoundHalfToEven(n, d) == Ok(v) <==> IsNearestEven(n, d, v)
  {
    HalfToEvenIsNearest(n, d);
    if IsNearestEven(n, d, v) {
      NearestEvenUnique(n, d, v, DivideRoundHalfToEven(n, d).value);
    }
  }

  /** With a sign in front, the sign is taken off first; rounding is the same on both sides of zero. */
  lemma ParsesSigned(text: string, whole: string, fraction: string, digits: int, v: int)
    requires IsDecimal(text, whole, fraction)
    ensures DecimalTextToMinor(text, digits) == Ok(v) <==> NonNegativeDecimalTextToMinor(text, digits) == Ok(v)
    ensures DecimalTextToMinor("-" + text, digits) == Ok(-v) <==> NonNegativeDecimalTextToMinor(text, digits) == Ok(v)
  {
    assert text[0] == whole[0];
    SignOff("-" + text, text, digits, v);
  }

  lemma SignOff(text: string, body: string, digits: int, v: int)
    requires text == "-" + body
    ensures DecimalTextToMinor(text, digits) == Ok(-v) <==> NonNegativeDecimalTextToMinor(body, digits) == Ok(v)
  {
    assert text[1..] == body;
  }

  /** Nothing else parses. */
  lemma ParsesOnlyDecimals(text: string, digits: int)
    ensures NonNegativeDecimalTextToMinor(text, digits).Ok? ==>
            exists whole, fraction :: IsDecimal(text, whole, fraction)
    ensures DecimalTextToMinor(text, digits).Ok? ==>
            exists body, whole, fraction :: IsDecimal(body, whole, fraction) && (text == body || text == "-" + body)
  {
    if NonNegativeDecimalTextToMinor(text, digits).Ok? {
      MatchedIsDecimal(text);
    }
    if text != [] && text[0] == '-' && NonNegativeDecimalTextToMinor(text[1..], digits).Ok? {
      MatchedIsDecimal(text[1..]);
      assert text == "-" + text[1..];
    }
  }

  lemma MatchedIsDecimal(text: string)
    requires MatchCanonical(text).Matched?
    ensures exists whole, fraction :: IsDecimal(text, whole, fraction)
  {
    var m := MatchCanonical(text);
    MatchExactlyWhen(text, m.integerPart, m.fractionPart);
  }

  // Percentages in units of 1/10,000 percent

  function PercentTextToDbps(text: string): Result<int> {
    match MatchCanonical(text)
    case NoMatch => Err(Validation)
    case Matched(integerPart, fractionPart) =>
      if |fractionPart| > 4 || !AllDigits(integerPart + fractionPart + Zeros(4 - |fractionPart|)) then Err(Validation)
      else Ok(DigitsValue(integerPart + fractionPart + Zeros(4 - |fractionPart|)))
  }

  function DbpsToPercentText(dbps: int): Result<string> {
    if dbps < 0 then Err(Validation)
    else Ok(NatText(dbps / 10_000) + "." + PadStart(NatText(dbps % 10_000), 4))
  }

  /** Every non-negative percentage survives printing and parsing, without rounding. */
  lemma PercentRoundTrip(dbps: nat)
    ensures DbpsToPercentText(dbps).Ok?
    ensures PercentTextToDbps(DbpsToPercentText(dbps).value) == Ok(dbps)
  {
    Pow10Four();
    JoinedValue(dbps / 10_000, dbps % 10_000, 4);
    PercentParts(NatText(dbps / 10_000), PadStart(NatText(dbps % 10_000), 4));
  }

  lemma ScaledByZeros(s: string, n: nat)
    requires AllDigits(s)
    ensures AllDigits(s + Zeros(n)) && DigitsValue(s + Zeros(n)) == DigitsValue(s) * Pow10(n)
  {
    ZerosValue(n);
    DigitsValueAppend(s, Zeros(n));
  }

  /** A percentage text is read exactly, with up to four decimals: 12.5 is 125,000 units. */
  lemma PercentExactlyWhen(text: string, whole: string, fraction: string)
    requires IsDecimal(text, whole, fraction)
    ensures PercentTextToDbps(text) == if |fraction| <= 4 then Ok(DigitsValue(whole + fraction) * Pow10(4 - |fraction|))
                                       else Err(Validation)
  {
    MatchExactlyWhen(text, whole, fraction);
    if |fraction| <= 4 {
      ScaledByZeros(whole + fraction, 4 - |fraction|);
    }
  }

  lemma PercentOnlyDecimals(text: string)
    ensures PercentTextToDbps(text).Ok? ==>
            exists whole, fraction :: IsDecimal(text, whole, fraction) && |fraction| <= 4
  {
    if PercentTextToDbps(text).Ok? {
      var m := MatchCanonical(text);
      MatchExactlyWhen(text, m.integerPart, m.fractionPart);
    }
  }

  lemma PercentParts(whole: string, fraction: string)
    requires CanonicalInteger(whole) && AllDigits(fraction) && |fraction| == 4 && AllDigits(whole + fraction)
    ensures PercentTextToDbps(whole + "." + fraction) == Ok(DigitsValue(whole + fraction))
  {
    MatchParts(whole, fraction);
    assert whole + fraction + Zeros(0) == whole + fraction;
  }

  lemma Pow10Four()
    ensures Pow10(4) == 10_000
  {
    assert Pow10(1) == 10 && Pow10(2) == 100 && Pow10(3) == 1000;
  }
}
