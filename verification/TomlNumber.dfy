/** The text of integers and floats as the settings compiler prints them, and a reader for them after
    TOML v1.0.0, sections "Integer" and "Float". */
module TomlNumber {
  import opened Wrappers

  type DigitValue = n: nat | n < 10

  /** A float by its shortest decimal text: digits after the point with or without an exponent, an
      exponent alone, or one of the special values. */
  datatype Float =
    | Fixed(negative: bool, whole: nat, first: DigitValue, more: seq<DigitValue>, exponent: Option<int>)
    | Whole(negative: bool, whole: nat, power: int)
    | Infinite(negative: bool)
    | NotANumber

  datatype Number = IntegerNumber(n: int) | FloatNumber(f: Float)

  datatype Got<T> = Got(value: T, rest: string)

  // ---- The printer ----

  function Digit(n: DigitValue): char {
    '0' + n as char
  }

  function Decimal(n: nat): string {
    if n < 10 then [Digit(n)] else Decimal(n / 10) + [Digit(n % 10)]
  }

  function DigitsText(digits: seq<DigitValue>): string {
    if digits == [] then [] else [Digit(digits[0])] + DigitsText(digits[1..])
  }

  /** An exponent has at least two digits. */
  function TwoDigits(n: nat): string {
    if n < 10 then "0" + Decimal(n) else Decimal(n)
  }

  function ExponentText(exponent: Option<int>): string {
    if exponent.None? then ""
    else if exponent.value < 0 then "e-" + TwoDigits(-exponent.value)
    else "e+" + TwoDigits(exponent.value)
  }

  function Sign(negative: bool): string {
    if negative then "-" else ""
  }

  function UnsignedText(number: Number): string {
    match number
    case IntegerNumber(n) => Decimal(if n < 0 then -n else n)
    case FloatNumber(Fixed(_, whole, first, more, exponent)) =>
      Decimal(whole) + ("." + DigitsText([first] + more) + ExponentText(exponent))
    case FloatNumber(Whole(_, whole, power)) => Decimal(whole) + ExponentText(Some(power))
    case FloatNumber(Infinite(_)) => "inf"
    case FloatNumber(NotANumber) => "nan"
  }

  predicate Negative(number: Number) {
    match number
    case IntegerNumber(n) => n < 0
    case FloatNumber(f) => !f.NotANumber? && f.negative
  }

  function PrintNumber(number: Number): string {
    Sign(Negative(number)) + UnsignedText(number)
  }

  lemma SmallDecimals()
    ensures Decimal(0) == "0" && Decimal(1) == "1" && Decimal(3) == "3" && Decimal(7) == "7"
    ensures Decimal(10) == "10" && Decimal(16) == "16" && Decimal(120) == "120"
  {
    assert Decimal(12) == "12";
  }

  lemma SmallFractions()
    ensures DigitsText([5]) == "5" && DigitsText([2, 5]) == "25"
  {
    assert [2 as DigitValue, 5][1..] == [5] && [5 as DigitValue][1..] == [];
  }

  /** What the texts look like: no leading zeros, and exponents with a sign and at least two digits. */
  lemma NumberTexts()
    ensures PrintNumber(IntegerNumber(0)) == "0" && PrintNumber(IntegerNumber(-10)) == "-10"
    ensures PrintNumber(FloatNumber(Fixed(true, 0, 2, [5], None))) == "-0.25"
    ensures PrintNumber(FloatNumber(Infinite(false))) == "inf" && PrintNumber(FloatNumber(Infinite(true))) == "-inf"
    ensures PrintNumber(FloatNumber(NotANumber)) == "nan"
  {
    SmallDecimals();
    SmallFractions();
    assert [2 as DigitValue] + [5] == [2, 5];
    hide Decimal, DigitsText;
  }

  lemma ExponentTexts()
    ensures ExponentText(Some(16)) == "e+16" && ExponentText(Some(-7)) == "e-07" && ExponentText(Some(-120)) == "e-120"
    ensures ExponentText(Some(0)) == "e+00" && ExponentText(None) == ""
    ensures PrintNumber(FloatNumber(Whole(false, 1, 16))) == "1" + ExponentText(Some(16))
    ensures PrintNumber(FloatNumber(Fixed(false, 1, 5, [], Some(-7)))) == "1.5" + ExponentText(Some(-7))
  {
    SmallDecimals();
    SmallFractions();
    assert [5 as DigitValue] + [] == [5];
    hide Decimal, DigitsText;
  }

  // ---- The reader ----

  predicate IsDigit(c: char) {
    '0' <= c <= '9'
  }

  predicate AllDigits(text: string) {
    forall i :: 0 <= i < |text| ==> IsDigit(text[i])
  }

  /** The digits a text starts with. */
  function Digits(text: string): (r: string)
    ensures |r| <= |text| && AllDigits(r)
  {
    if text == [] || !IsDigit(text[0]) then [] else [text[0]] + Digits(text[1..])
  }

  function ValueOf(digits: string): nat
    requires AllDigits(digits)
  {
    if digits == [] then 0 else
      ValueOf(digits[..|digits| - 1]) * 10 + (digits[|digits| - 1] as int - '0' as int)
  }

  function DigitValues(digits: string): (r: seq<DigitValue>)
    requires AllDigits(digits)
    ensures |r| == |digits|
  {
    if digits == [] then [] else [(digits[0] as int - '0' as int) as DigitValue] + DigitValues(digits[1..])
  }

  /** Decimal digits without a leading zero. */
  function ReadNatural(text: string): (r: Option<Got<nat>>)
    ensures r.Some? ==> |r.value.rest| < |text|
  {
    var digits := Digits(text);
    if digits == [] || (|digits| > 1 && digits[0] == '0') then None
    else Some(Got(ValueOf(digits), text[|digits|..]))
  }

  /** A point and at least one digit, or nothing. */
  function ReadFraction(text: string): (r: Option<Got<seq<DigitValue>>>)
    ensures r.Some? ==> |r.value.rest| <= |text|
  {
    if text == [] || text[0] != '.' then Some(Got([], text)) else
      var digits := Digits(text[1..]);
      if digits == [] then None else Some(Got(DigitValues(digits), text[1..][|digits|..]))
  }

  function Signed(negative: bool, n: nat): int {
    if negative then -(n as int) else n as int
  }

  function ReadPower(negative: bool, text: string): (r: Option<Got<Option<int>>>)
    ensures r.Some? ==> |r.value.rest| <= |text|
  {
    var digits := Digits(text);
    if digits == [] then None
    else Some(Got(Some(Signed(negative, ValueOf(digits))), text[|digits|..]))
  }

  /** An exponent, which may have a sign and leading zeros, or nothing. */
  function ReadExponent(text: string): (r: Option<Got<Option<int>>>)
    ensures r.Some? ==> |r.value.rest| <= |text|
  {
    if text == [] || (text[0] != 'e' && text[0] != 'E') then Some(Got(None, text))
    else if |text| > 1 && text[1] == '-' then ReadPower(true, text[2..])
    else if |text| > 1 && text[1] == '+' then ReadPower(false, text[2..])
    else ReadPower(false, text[1..])
  }

  function NumberOf(negative: bool, whole: nat, fraction: seq<DigitValue>, exponent: Option<int>): Number {
    if fraction != [] then FloatNumber(Fixed(negative, whole, fraction[0], fraction[1..], exponent))
    else if exponent.Some? then FloatNumber(Whole(negative, whole, exponent.value))
    else IntegerNumber(Signed(negative, whole))
  }

  function ReadUnsigned(negative: bool, text: string): (r: Option<Got<Number>>)
    ensures r.Some? ==> |r.value.rest| < |text|
  {
    if "inf" <= text then Some(Got(FloatNumber(Infinite(negative)), text[3..]))
    else if "nan" <= text then Some(Got(FloatNumber(NotANumber), text[3..]))
    else
      var whole := ReadNatural(text);
      if whole.None? then None else
        var fraction := ReadFraction(whole.value.rest);
        if fraction.None? then None else
          var exponent := ReadExponent(fraction.value.rest);
          if exponent.None? then None
          else Some(Got(NumberOf(negative, whole.value.value, fraction.value.value, exponent.value.value),
                        exponent.value.rest))
  }

  function ReadNumber(text: string): (r: Option<Got<Number>>)
    ensures r.Some? ==> |r.value.rest| < |text|
  {
    if text == [] then None
    else if text[0] == '-' then ReadUnsigned(true, text[1..])
    else ReadUnsigned(false, text)
  }

  // ---- Digits read back ----

  lemma {:induction false} DecimalReads(n: nat)
    ensures Decimal(n) != [] && AllDigits(Decimal(n)) && ValueOf(Decimal(n)) == n
    ensures |Decimal(n)| > 1 <==> n >= 10
    ensures n >= 10 ==> Decimal(n)[0] != '0'
  {
    if n >= 10 {
      DecimalReads(n / 10);
      assert Decimal(n)[..|Decimal(n)| - 1] == Decimal(n / 10);
    } else {
      assert [Digit(n)][..0] == [];
    }
  }

  predicate NoDigit(rest: string) {
    rest == [] || !IsDigit(rest[0])
  }

  lemma {:induction false} DigitsOf(digits: string, rest: string)
    requires AllDigits(digits) && NoDigit(rest)
    ensures Digits(digits + rest) == digits
  {
    if digits == [] {
      assert digits + rest == rest;
    } else {
      assert (digits + rest)[1..] == digits[1..] + rest;
      DigitsOf(digits[1..], rest);
    }
  }

  lemma NaturalReads(n: nat, rest: string)
    requires NoDigit(rest)
    ensures ReadNatural(Decimal(n) + rest) == Some(Got(n, rest))
  {
    DecimalReads(n);
    DigitsOf(Decimal(n), rest);
    assert (Decimal(n) + rest)[|Decimal(n)|..] == rest;
  }

  lemma {:induction false} LeadingZero(digits: string)
    requires AllDigits(digits)
    ensures AllDigits("0" + digits) && ValueOf("0" + digits) == ValueOf(digits)
  {
    var text := "0" + digits;
    if digits == [] {
      assert text == ['0'] && ['0'][..0] == [];
    } else {
      LeadingZero(digits[..|digits| - 1]);
      assert text[..|text| - 1] == "0" + digits[..|digits| - 1];
    }
  }

  lemma TwoDigitsRead(n: nat)
    ensures TwoDigits(n) != [] && AllDigits(TwoDigits(n)) && ValueOf(TwoDigits(n)) == n
  {
    hide Decimal;
    DecimalReads(n);
    LeadingZero(Decimal(n));
  }

  lemma {:induction false} FractionDigits(digits: seq<DigitValue>)
    ensures |DigitsText(digits)| == |digits| && AllDigits(DigitsText(digits)) &&
            DigitValues(DigitsText(digits)) == digits
  {
    if digits != [] {
      FractionDigits(digits[1..]);
      assert DigitsText(digits)[1..] == DigitsText(digits[1..]);
      assert digits == [digits[0]] + digits[1..];
    }
  }

  /** What may follow a number. */
  predicate EndsNumber(rest: string) {
    rest == [] || !(IsDigit(rest[0]) || rest[0] in {'.', 'e', 'E'})
  }

  lemma PowerReads(negative: bool, n: nat, rest: string)
    requires EndsNumber(rest)
    ensures ReadPower(negative, TwoDigits(n) + rest) == Some(Got(Some(Signed(negative, n)), rest))
  {
    hide TwoDigits;
    TwoDigitsRead(n);
    DigitsOf(TwoDigits(n), rest);
    assert (TwoDigits(n) + rest)[|TwoDigits(n)|..] == rest;
  }

  lemma ExponentReads(exponent: Option<int>, rest: string)
    requires EndsNumber(rest)
    ensures ReadExponent(ExponentText(exponent) + rest) == Some(Got(exponent, rest))
  {
    hide TwoDigits, ReadPower;
    var text := ExponentText(exponent) + rest;
    if exponent.None? {
      assert text == rest;
    } else if exponent.value < 0 {
      PowerReads(true, -exponent.value, rest);
      assert text[0] == 'e' && text[1] == '-' && text[2..] == TwoDigits(-exponent.value) + rest;
    } else {
      PowerReads(false, exponent.value, rest);
      assert text[0] == 'e' && text[1] == '+' && text[2..] == TwoDigits(exponent.value) + rest;
    }
  }

  lemma ExponentIsNoDigit(exponent: Option<int>, rest: string)
    requires EndsNumber(rest)
    ensures NoDigit(ExponentText(exponent) + rest)
    ensures var text := ExponentText(exponent) + rest; text == [] || text[0] != '.'
  {
    hide TwoDigits;
    if exponent.None? {
      assert ExponentText(exponent) + rest == rest;
    }
  }

  lemma FractionReads(digits: seq<DigitValue>, rest: string)
    requires digits != [] && NoDigit(rest)
    ensures ReadFraction("." + DigitsText(digits) + rest) == Some(Got(digits, rest))
  {
    hide DigitsText;
    FractionDigits(digits);
    DigitsOf(DigitsText(digits), rest);
    var text := "." + DigitsText(digits) + rest;
    assert text[0] == '.' && text[1..] == DigitsText(digits) + rest;
    assert text[1..][|DigitsText(digits)|..] == rest;
  }

  lemma Regroup(a: string, b: string, c: string)
    ensures a + b + c == a + (b + c)
  {
  }

  lemma StartsWithDigit(n: nat, rest: string)
    ensures var text := Decimal(n) + rest; text != [] && IsDigit(text[0]) && !("inf" <= text) && !("nan" <= text)
  {
    DecimalReads(n);
    assert "inf"[0] == 'i' && "nan"[0] == 'n' && (Decimal(n) + rest)[0] == Decimal(n)[0];
  }

  lemma PlainReads(negative: bool, whole: nat, rest: string)
    requires EndsNumber(rest)
    ensures ReadUnsigned(negative, Decimal(whole) + rest) == Some(Got(NumberOf(negative, whole, [], None), rest))
  {
    hide Decimal, ReadNatural;
    StartsWithDigit(whole, rest);
    NaturalReads(whole, rest);
  }

  lemma PoweredReads(negative: bool, whole: nat, power: int, rest: string)
    requires EndsNumber(rest)
    ensures ReadUnsigned(negative, Decimal(whole) + (ExponentText(Some(power)) + rest))
            == Some(Got(FloatNumber(Whole(negative, whole, power)), rest))
  {
    hide Decimal, ReadNatural, ExponentText, ReadExponent;
    var tail := ExponentText(Some(power)) + rest;
    StartsWithDigit(whole, tail);
    ExponentIsNoDigit(Some(power), rest);
    NaturalReads(whole, tail);
    ExponentReads(Some(power), rest);
  }

  lemma FixedReads(negative: bool, whole: nat, digits: seq<DigitValue>, exponent: Option<int>, rest: string)
    requires EndsNumber(rest) && digits != []
    ensures ReadUnsigned(negative, Decimal(whole) + ("." + DigitsText(digits) + (ExponentText(exponent) + rest)))
            == Some(Got(NumberOf(negative, whole, digits, exponent), rest))
  {
    hide Decimal, ReadNatural, ExponentText, ReadExponent, ReadFraction, DigitsText;
    var after := ExponentText(exponent) + rest;
    var tail := "." + DigitsText(digits) + after;
    StartsWithDigit(whole, tail);
    ExponentIsNoDigit(exponent, rest);
    assert tail[0] == '.';
    NaturalReads(whole, tail);
    FractionReads(digits, after);
    ExponentReads(exponent, rest);
  }

  lemma UnsignedReads(number: Number, rest: string)
    requires EndsNumber(rest)
    ensures ReadUnsigned(Negative(number), UnsignedText(number) + rest) == Some(Got(number, rest))
  {
    hide ReadUnsigned, Decimal, ExponentText, DigitsText;
    match number {
      case IntegerNumber(n) => PlainReads(n < 0, if n < 0 then -n else n, rest);
      case FloatNumber(Fixed(negative, whole, first, more, exponent)) =>
        var digits := [first] + more;
        assert digits[0] == first && digits[1..] == more;
        FixedReads(negative, whole, digits, exponent, rest);
        var fraction := "." + DigitsText(digits);
        Regroup(Decimal(whole), fraction + ExponentText(exponent), rest);
        Regroup(fraction, ExponentText(exponent), rest);
      case FloatNumber(Whole(negative, whole, power)) =>
        PoweredReads(negative, whole, power, rest);
        Regroup(Decimal(whole), ExponentText(Some(power)), rest);
      case FloatNumber(Infinite(negative)) => SpecialReads(negative, rest);
      case FloatNumber(NotANumber) => SpecialReads(false, rest);
    }
  }

  lemma SpecialReads(negative: bool, rest: string)
    ensures ReadUnsigned(negative, "inf" + rest) == Some(Got(FloatNumber(Infinite(negative)), rest))
    ensures ReadUnsigned(negative, "nan" + rest) == Some(Got(FloatNumber(NotANumber), rest))
  {
    assert "inf" <= "inf" + rest && ("inf" + rest)[3..] == rest;
    assert "nan" <= "nan" + rest && ("nan" + rest)[3..] == rest;
    assert ("nan" + rest)[0] == 'n' && "inf"[0] == 'i';
  }

  lemma UnsignedStart(number: Number)
    ensures var text := UnsignedText(number); text != [] && (IsDigit(text[0]) || text[0] in {'i', 'n'})
  {
    hide Decimal, ExponentText, DigitsText;
    match number {
      case IntegerNumber(n) => DecimalReads(if n < 0 then -n else n);
      case FloatNumber(Fixed(_, whole, _, _, _)) => DecimalReads(whole);
      case FloatNumber(Whole(_, whole, _)) => DecimalReads(whole);
      case _ =>
    }
  }

  /** Every integer and every float reads back, whatever follows it that cannot belong to a number. */
  lemma NumberReads(number: Number, rest: string)
    requires EndsNumber(rest)
    ensures ReadNumber(PrintNumber(number) + rest) == Some(Got(number, rest))
    ensures var text := PrintNumber(number); text != [] && (IsDigit(text[0]) || text[0] in {'-', 'i', 'n'})
  {
    hide UnsignedText, ReadUnsigned;
    UnsignedReads(number, rest);
    UnsignedStart(number);
    var text := PrintNumber(number) + rest;
    if Negative(number) {
      assert text[0] == '-' && text[1..] == UnsignedText(number) + rest;
    } else {
      assert text == UnsignedText(number) + rest && text[0] == UnsignedText(number)[0];
    }
  }
}
