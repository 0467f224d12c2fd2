// The unit converter of testkit/funcs/helper.go, over exact reals; printing rounds to
// hundredths, ties to even, as strconv does.
module Units {
  import opened Wrappers

  datatype Result<+T> = Ok(value: T) | Err(message: string)

  // ---- Scales ----

  function GiBToMiB(gib: real): real { gib * 1024.0 }
  function MiBToGiB(mib: real): real { mib / 1024.0 }
  function GiBToKiB(gib: real): real { gib * 1048576.0 }
  function KiBToGiB(kib: real): real { kib / 1048576.0 }
  function MiBToKiB(mib: real): real { mib * 1024.0 }
  function KiBToMiB(kib: real): real { kib / 1024.0 }

  predicate IsUnit(unit: string) {
    unit == "GI" || unit == "MI" || unit == "KI"
  }

  // Kibibytes in a unit.
  function Size(unit: string): (size: int)
    requires IsUnit(unit)
    ensures size > 0
  {
    if unit == "GI" then 1048576 else if unit == "MI" then 1024 else 1
  }

  // The nested switches; None is the default branch of either.
  function Scale(value: real, from: string, to: string): Option<real> {
    if from == "GI" then
      if to == "MI" then Some(GiBToMiB(value)) else if to == "KI" then Some(GiBToKiB(value))
      else if to == "GI" then Some(value) else None
    else if from == "MI" then
      if to == "GI" then Some(MiBToGiB(value)) else if to == "KI" then Some(MiBToKiB(value))
      else if to == "MI" then Some(value) else None
    else if from == "KI" then
      if to == "GI" then Some(KiBToGiB(value)) else if to == "MI" then Some(KiBToMiB(value))
      else if to == "KI" then Some(value) else None
    else None
  }

  // The nine branches agree with one table of sizes, and refuse everything else.
  lemma ScaleIsRatio(value: real, from: string, to: string)
    ensures Scale(value, from, to).Some? <==> IsUnit(from) && IsUnit(to)
    ensures IsUnit(from) && IsUnit(to) ==> Scale(value, from, to).value * Size(to) as real == value * Size(from) as real
  {
  }

  // ---- Reading a value ----

  predicate IsSpace(c: char) {
    || '\t' <= c <= '\r' || c == ' ' || c == '\U{85}' || c == '\U{A0}' || c == '\U{1680}'
    || '\U{2000}' <= c <= '\U{200A}'
    || c == '\U{2028}' || c == '\U{2029}' || c == '\U{202F}' || c == '\U{205F}' || c == '\U{3000}'
  }

  function TrimSpace(s: string): string
    decreases |s|
  {
    if s == "" then ""
    else if IsSpace(s[0]) then TrimSpace(s[1..])
    else if IsSpace(s[|s| - 1]) then TrimSpace(s[..|s| - 1])
    else s
  }

  predicate IsNumeral(c: char) { '0' <= c <= '9' || c == '.' }

  predicate IsLetter(c: char) { 'a' <= c <= 'z' || 'A' <= c <= 'Z' }

  predicate NumberText(s: string) { s != "" && forall i :: 0 <= i < |s| ==> IsNumeral(s[i]) }

  predicate UnitText(s: string) { s != "" && forall i :: 0 <= i < |s| ==> IsLetter(s[i]) }

  // The length of the longest prefix of numerals.
  function Leading(s: string): (n: nat)
    ensures n <= |s|
    ensures forall i :: 0 <= i < n ==> IsNumeral(s[i])
  {
    if s != "" && IsNumeral(s[0]) then 1 + Leading(s[1..]) else 0
  }

  function Upper(s: string): string {
    seq(|s|, i requires 0 <= i < |s| => if 'a' <= s[i] <= 'z' then s[i] - 'a' + 'A' else s[i])
  }

  function Digit(c: char): int { c as int - '0' as int }

  function NatOf(s: string): int {
    if s == "" then 0 else 10 * NatOf(s[..|s| - 1]) + Digit(s[|s| - 1])
  }

  function Pow10(n: nat): (p: int)
    ensures p > 0
  {
    if n == 0 then 1 else 10 * Pow10(n - 1)
  }

  function FirstDot(s: string): (i: nat)
    ensures i <= |s| && (i < |s| ==> s[i] == '.') && forall j :: 0 <= j < i ==> s[j] != '.'
  {
    if s == "" || s[0] == '.' then 0 else 1 + FirstDot(s[1..])
  }

  function ValueOf(whole: string, frac: string): real {
    NatOf(whole) as real + NatOf(frac) as real / Pow10(|frac|) as real
  }

  // At least one digit, at most one dot.
  function ParseFloat(s: string): Option<real> {
    var dot := FirstDot(s);
    var whole := s[..dot];
    var frac := if dot < |s| then s[dot + 1..] else "";
    if |whole| + |frac| == 0 || FirstDot(frac) < |frac| then None
    else Some(ValueOf(whole, frac))
  }

  function ParseValueUnit(input: string): Option<(real, string)> {
    var s := TrimSpace(input);
    var n := Leading(s);
    if n == 0 || !UnitText(s[n..]) then None
    else
      var value := ParseFloat(s[..n]);
      if value.None? then None else Some((value.value, Upper(s[n..])))
  }

  // The expression of the source splits a text in at most one way.
  lemma {:induction false} LeadingIs(number: string, unit: string)
    requires (forall i :: 0 <= i < |number| ==> IsNumeral(number[i])) && UnitText(unit)
    ensures Leading(number + unit) == |number|
  {
    if number == "" {
      assert number + unit == unit && IsLetter(unit[0]);
    } else {
      assert (number + unit)[1..] == number[1..] + unit;
      LeadingIs(number[1..], unit);
    }
  }

  lemma {:induction false} SplitsOnce(s: string, number: string, unit: string)
    requires NumberText(number) && UnitText(unit) && s == number + unit
    ensures Leading(s) == |number| && s[..Leading(s)] == number && s[Leading(s)..] == unit
  {
    LeadingIs(number, unit);
  }

  // ---- Writing a value ----

  function OfHundredths(h: int): real { h as real / 100.0 }

  // The nearest whole number of hundredths, ties to even.
  function Hundredths(value: real): int {
    var x := 100.0 * value;
    var f := x.Floor;
    if x - f as real < 0.5 || (x - f as real == 0.5 && f % 2 == 0) then f else f + 1
  }

  function DigitChar(d: int): char
    requires 0 <= d < 10
  {
    '0' + d as char
  }

  function Decimal(n: nat): (s: string)
    ensures NumberText(s) && FirstDot(s) == |s|
    ensures |s| > 1 ==> s[0] != '0'
  {
    if n < 10 then [DigitChar(n)]
    else
      var s := Decimal(n / 10) + [DigitChar(n % 10)];
      assert forall j :: 0 <= j < |s| ==> s[j] != '.';
      s
  }

  function TwoDigits(h: nat): string {
    [DigitChar(h / 10 % 10), DigitChar(h % 10)]
  }

  function Print(h: nat): string {
    Decimal(h / 100) + "." + TwoDigits(h)
  }

  // Nothing readable is negative.
  function Sprintf(value: real, unit: string): string {
    Print(if Hundredths(value) < 0 then 0 else Hundredths(value)) + unit
  }

  function ConvertUnit(fromValue: string, toUnit: string): Result<string> {
    match ParseValueUnit(fromValue)
    case None => Err("incorrect value " + fromValue)
    case Some(parsed) =>
      match Scale(parsed.0, parsed.1, toUnit)
      case None => Err("unsupported unit conversion: " + parsed.1 + " to " + toUnit)
      case Some(converted) => Ok(Sprintf(converted, toUnit))
  }

  // ---- What the converter promises ----

  lemma Nearest(value: real, h: int)
    ensures -0.005 <= OfHundredths(Hundredths(value)) - value <= 0.005
    ensures value >= 0.0 ==> Hundredths(value) >= 0
    ensures value == OfHundredths(h) ==> Hundredths(value) == h
  {
    var x := 100.0 * value;
    if value == OfHundredths(h) {
      assert x == h as real;
    }
  }

  // Halfway between two hundredths the even one is taken.
  lemma TiesToEven(value: real, h: int)
    requires value == OfHundredths(h) + 0.005
    ensures Hundredths(value) == if h % 2 == 0 then h else h + 1
  {
    assert 100.0 * value == h as real + 0.5;
  }

  lemma {:induction false} DecimalReads(n: nat)
    ensures NatOf(Decimal(n)) == n
  {
    var s := Decimal(n);
    if n < 10 {
      assert s[..|s| - 1] == "";
    } else {
      DecimalReads(n / 10);
      assert s[..|s| - 1] == Decimal(n / 10);
    }
  }

  lemma {:induction false} NatOfIsNat(s: string)
    requires forall i :: 0 <= i < |s| ==> '0' <= s[i] <= '9'
    ensures NatOf(s) >= 0
  {
    if s != "" {
      NatOfIsNat(s[..|s| - 1]);
    }
  }

  lemma ParseFloatIsNatural(s: string)
    requires forall i :: 0 <= i < |s| ==> IsNumeral(s[i])
    ensures ParseFloat(s).Some? ==> ParseFloat(s).value >= 0.0
  {
    var dot := FirstDot(s);
    var whole := s[..dot];
    var frac := if dot < |s| then s[dot + 1..] else "";
    hide NatOf, Pow10;
    if FirstDot(frac) == |frac| {
      NatOfIsNat(whole);
      NatOfIsNat(frac);
      QuotientIsNatural(NatOf(frac), Pow10(|frac|));
    }
  }

  lemma QuotientIsNatural(a: nat, b: nat)
    requires b > 0
    ensures a as real / b as real >= 0.0
  {
  }

  // No sign can be read.
  lemma ParsedIsNatural(input: string)
    requires ParseValueUnit(input).Some?
    ensures ParseValueUnit(input).value.0 >= 0.0
  {
    hide ParseFloat, TrimSpace, Leading;
    var s := TrimSpace(input);
    ParseFloatIsNatural(s[..Leading(s)]);
  }

  lemma {:induction false} FirstDotAt(s: string, t: string)
    requires FirstDot(s) == |s|
    ensures FirstDot(s + "." + t) == |s|
  {
    var whole := s + "." + t;
    assert whole[|s|] == '.';
    assert forall j :: 0 <= j < |s| ==> whole[j] == s[j];
  }

  lemma LastTwo(h: nat)
    ensures 10 * (h / 10 % 10) + h % 10 == h % 100
  {
    assert h == 100 * (h / 100) + 10 * (h / 10 % 10) + h % 10;
  }

  lemma PairReads(a: int, b: int)
    requires 0 <= a < 10 && 0 <= b < 10
    ensures NatOf([DigitChar(a), DigitChar(b)]) == 10 * a + b
    ensures FirstDot([DigitChar(a), DigitChar(b)]) == 2
  {
    var s := [DigitChar(a), DigitChar(b)];
    assert s[..1] == [s[0]] && s[..1][..0] == "";
    assert NatOf(s[..1]) == a;
    assert FirstDot(s[1..]) == 1;
  }

  lemma TwoDigitsRead(h: nat)
    ensures NatOf(TwoDigits(h)) == h % 100
    ensures FirstDot(TwoDigits(h)) == |TwoDigits(h)| == 2
  {
    PairReads(h / 10 % 10, h % 10);
    LastTwo(h);
  }

  lemma Hundreds(h: nat, hundred: int)
    requires hundred == 100
    ensures (h / 100) as real + (h % 100) as real / hundred as real == OfHundredths(h)
  {
    assert h == 100 * (h / 100) + h % 100;
  }

  lemma {:induction false} ParseParts(whole: string, frac: string)
    requires FirstDot(whole) == |whole| && FirstDot(frac) == |frac| && frac != ""
    ensures ParseFloat(whole + "." + frac) == Some(ValueOf(whole, frac))
  {
    hide ValueOf, FirstDot;
    FirstDotAt(whole, frac);
    var s := whole + "." + frac;
    assert s[..|whole|] == whole && s[|whole| + 1..] == frac;
  }

  lemma PrintReads(h: nat)
    ensures NumberText(Print(h)) && ParseFloat(Print(h)) == Some(OfHundredths(h))
  {
    assert Pow10(1) == 10 && Pow10(2) == 100;
    hide ParseFloat, NatOf, Pow10, FirstDot, Decimal, TwoDigits, OfHundredths, NumberText;
    DecimalReads(h / 100);
    TwoDigitsRead(h);
    ParseParts(Decimal(h / 100), TwoDigits(h));
    Hundreds(h, Pow10(|TwoDigits(h)|));
    PrintIsNumber(h);
  }

  lemma PrintIsNumber(h: nat)
    ensures NumberText(Print(h))
  {
    var whole := Decimal(h / 100);
    assert forall i :: 0 <= i < |whole| ==> IsNumeral(whole[i]);
    assert forall i :: 0 <= i < 2 ==> IsNumeral(TwoDigits(h)[i]);
  }

  lemma {:induction false} TrimNothing(s: string)
    requires s != "" && !IsSpace(s[0]) && !IsSpace(s[|s| - 1])
    ensures TrimSpace(s) == s
  {
  }

  // What is printed is read back, to the hundredth and with its unit.
  lemma PrintedParses(h: nat, unit: string)
    requires IsUnit(unit)
    ensures ParseValueUnit(Print(h) + unit) == Some((OfHundredths(h), unit))
  {
    PrintReads(h);
    hide Print, ParseFloat;
    var s := Print(h) + unit;
    assert IsNumeral(s[0]) && s[|s| - 1] == 'I';
    TrimNothing(s);
    SplitsOnce(s, Print(h), unit);
    assert Upper(unit) == unit;
  }

  // It converts exactly the readable values of a known unit, in any case, to a known
  // unit, in upper case.
  lemma Converts(s: string, to: string)
    ensures ConvertUnit(s, to).Ok? <==> ParseValueUnit(s).Some? && IsUnit(ParseValueUnit(s).value.1) && IsUnit(to)
    ensures ConvertUnit(s, to).Ok? ==> exists h: nat :: ConvertUnit(s, to).value == Print(h) + to
  {
    if ParseValueUnit(s).Some? {
      var parsed := ParseValueUnit(s).value;
      ScaleIsRatio(parsed.0, parsed.1, to);
    }
  }

  ghost predicate SameAmount(x: real, from: string, y: real, to: string)
    requires IsUnit(from) && IsUnit(to)
  {
    y * Size(to) as real == x * Size(from) as real
  }

  // One conversion: what is printed is within half a hundredth of the exact value, and
  // is itself readable.
  lemma ConvertsTo(s: string, value: real, from: string, to: string) returns (h: nat, exact: real)
    requires ParseValueUnit(s) == Some((value, from)) && value >= 0.0 && IsUnit(from) && IsUnit(to)
    ensures ConvertUnit(s, to) == Ok(Print(h) + to)
    ensures ParseValueUnit(Print(h) + to) == Some((OfHundredths(h), to))
    ensures Scale(value, from, to) == Some(exact) && SameAmount(value, from, exact, to)
    ensures h == Hundredths(exact) && -0.005 <= OfHundredths(h) - exact <= 0.005
  {
    hide ParseValueUnit, Print, Hundredths;
    ScaleIsRatio(value, from, to);
    exact := Scale(value, from, to).value;
    Nearest(exact, 0);
    h := Hundredths(exact);
    PrintedParses(h, to);
  }

  predicate Near(x: real, y: real, from: string, to: string)
    requires IsUnit(from) && IsUnit(to)
  {
    var bound := 0.005 * (Size(to) as real / Size(from) as real) + 0.005;
    -bound <= x - y <= bound
  }

  // Converting to another unit and back moves a value by at most half a hundredth of
  // each unit.
  lemma ThereAndBack(s: string, value: real, from: string, to: string)
    returns (there: string, back: string, returned: real)
    requires ParseValueUnit(s) == Some((value, from)) && IsUnit(from) && IsUnit(to)
    ensures ConvertUnit(s, to) == Ok(there) && ConvertUnit(there, from) == Ok(back)
    ensures ParseValueUnit(back) == Some((returned, from)) && Near(returned, value, from, to)
  {
    ParsedIsNatural(s);
    hide ParseValueUnit, ConvertUnit, Print, Hundredths, OfHundredths, Scale, IsUnit, Size, Near, SameAmount;
    var h, exact := ConvertsTo(s, value, from, to);
    there := Print(h) + to;
    var h', exact' := ConvertsTo(there, OfHundredths(h), to, from);
    back, returned := Print(h') + from, OfHundredths(h');
    IsNear(value, exact, OfHundredths(h), exact', returned, from, to);
  }

  lemma IsNear(value: real, exact: real, there: real, returned: real, back: real, from: string, to: string)
    requires IsUnit(from) && IsUnit(to)
    requires SameAmount(value, from, exact, to) && SameAmount(there, to, returned, from)
    requires -0.005 <= there - exact <= 0.005 && -0.005 <= back - returned <= 0.005
    ensures Near(back, value, from, to)
  {
    hide Size;
    ReturnError(value, exact, there, returned, Size(from) as real, Size(to) as real);
  }

  lemma ReturnError(value: real, converted: real, printed: real, returned: real, a: real, b: real)
    requires a > 0.0 && b > 0.0
    requires converted * b == value * a && returned * a == printed * b
    requires -0.005 <= printed - converted <= 0.005
    ensures -(0.005 * (b / a)) <= returned - value <= 0.005 * (b / a)
  {
    var r := b / a;
    assert r * a == b && r > 0.0;
    assert returned == printed * r;
    assert value == converted * r;
    assert returned - value == (printed - converted) * r;
  }

  // A two-decimal value goes to a smaller unit and back unchanged, as text.
  lemma TwoDecimalsReturn(h: nat, from: string, to: string)
    requires IsUnit(from) && IsUnit(to) && Size(to) <= Size(from)
    ensures ConvertUnit(Print(h) + from, to).Ok?
    ensures ConvertUnit(ConvertUnit(Print(h) + from, to).value, from) == Ok(Print(h) + from)
  {
    hide ParseValueUnit, ConvertUnit, Print, Hundredths, Scale;
    PrintedParses(h, from);
    var value, k := OfHundredths(h), Size(from) / Size(to);
    var there, exact := ConvertsTo(Print(h) + from, value, from, to);
    ScalesUp(h, from, to);
    Nearest(exact, h * k);
    var back, returned := ConvertsTo(Print(h * k) + to, OfHundredths(h * k), to, from);
    Nearest(returned, h);
  }

  // Hundredths of a unit are hundredths of a smaller one.
  lemma ScalesUp(h: nat, from: string, to: string)
    requires IsUnit(from) && IsUnit(to) && Size(to) <= Size(from)
    ensures
      var k := Size(from) / Size(to);
      && h * k >= 0
      && Scale(OfHundredths(h), from, to) == Some(OfHundredths(h * k))
      && Scale(OfHundredths(h * k), to, from) == Some(OfHundredths(h))
  {
    assert Size(from) / Size(to) in {1, 1024, 1048576};
  }

  // ---- What is read ----

  predicate Digits(s: string) { forall i :: 0 <= i < |s| ==> '0' <= s[i] <= '9' }

  predicate Blank(s: string) { forall i :: 0 <= i < |s| ==> IsSpace(s[i]) }

  lemma {:induction false} NoDot(s: string)
    requires Digits(s)
    ensures FirstDot(s) == |s|
  {
    if s != "" {
      NoDot(s[1..]);
    }
  }

  lemma {:induction false} TrimBlanks(a: string, s: string, b: string)
    requires Blank(a) && Blank(b) && s != "" && !IsSpace(s[0]) && !IsSpace(s[|s| - 1])
    ensures TrimSpace(a + s + b) == s
    decreases |a| + |b|
  {
    var all := a + s + b;
    if a != "" {
      assert all[0] == a[0] && all[1..] == a[1..] + s + b;
      TrimBlanks(a[1..], s, b);
    } else if b != "" {
      assert all[0] == s[0] && all[|all| - 1] == b[|b| - 1] && all[..|all| - 1] == a + s + b[..|b| - 1];
      TrimBlanks(a, s, b[..|b| - 1]);
    } else {
      assert all == s;
    }
  }

  // Digits, perhaps a dot and more digits, then letters, with blanks around.
  lemma ReadsNumber(a: string, whole: string, frac: string, dot: bool, unit: string, b: string)
    requires Blank(a) && Blank(b) && Digits(whole) && Digits(frac) && UnitText(unit)
    requires if dot then |whole| + |frac| > 0 else frac == "" && whole != ""
    ensures
      var number := whole + (if dot then "." else "") + frac;
      ParseValueUnit(a + number + unit + b) == Some((ValueOf(whole, frac), Upper(unit)))
  {
    hide Upper, ValueOf;
    var number := whole + (if dot then "." else "") + frac;
    ReadsFloat(whole, frac, dot);
    TrimBlanks(a, number + unit, b);
    assert a + (number + unit) + b == a + number + unit + b;
    SplitsOnce(number + unit, number, unit);
  }

  lemma ReadsFloat(whole: string, frac: string, dot: bool)
    requires Digits(whole) && Digits(frac)
    requires if dot then |whole| + |frac| > 0 else frac == "" && whole != ""
    ensures
      var number := whole + (if dot then "." else "") + frac;
      NumberText(number) && ParseFloat(number) == Some(ValueOf(whole, frac))
  {
    hide ValueOf;
    var number := whole + (if dot then "." else "") + frac;
    NoDot(whole);
    NoDot(frac);
    if dot {
      FirstDotAt(whole, frac);
      assert number == whole + "." + frac;
      assert number[..|whole|] == whole && number[|whole| + 1..] == frac;
    } else {
      assert number == whole && number[..|whole|] == whole;
    }
  }

  // Units are read in any case.
  lemma UpperIs(s: string)
    ensures |Upper(s)| == |s|
    ensures Upper(s) == "GI" <==> |s| == 2 && s[0] in "Gg" && s[1] in "Ii"
    ensures Upper(s) == "MI" <==> |s| == 2 && s[0] in "Mm" && s[1] in "Ii"
    ensures Upper(s) == "KI" <==> |s| == 2 && s[0] in "Kk" && s[1] in "Ii"
  {
    if |s| == 2 {
      assert Upper(s) == [Upper(s)[0], Upper(s)[1]];
    }
  }

  lemma OneDigit(c: char)
    ensures NatOf([c]) == Digit(c) && NatOf("") == 0
  {
    assert [c][..0] == "";
  }

  lemma TwoDigitText(c: char, d: char)
    ensures NatOf([c, d]) == 10 * Digit(c) + Digit(d)
  {
    OneDigit(c);
    assert [c, d][..1] == [c];
  }

  lemma ValueExamples()
    ensures ValueOf("10", "") == 10.0 && ValueOf("1", "5") == 1.5 && ValueOf("", "25") == 0.25
  {
    TwoDigitText('1', '0');
    TwoDigitText('2', '5');
    OneDigit('1');
    OneDigit('5');
    assert Pow10(0) == 1 && Pow10(1) == 10 && Pow10(2) == 100;
  }

  lemma UnitExamples()
    ensures Upper("Gi") == "GI" && Upper("mi") == "MI" && Upper("Ki") == "KI"
  {
  }

  lemma ReadExamples()
    ensures ParseValueUnit("10Gi") == Some((10.0, "GI"))
    ensures ParseValueUnit(" 1.5mi") == Some((1.5, "MI"))
    ensures ParseValueUnit(".25Ki") == Some((0.25, "KI"))
  {
    hide ParseValueUnit, ValueOf, Upper;
    ValueExamples();
    UnitExamples();
    ReadsNumber("", "10", "", false, "Gi", "");
    assert "" + ("10" + "" + "") + "Gi" + "" == "10Gi";
    ReadsNumber(" ", "1", "5", true, "mi", "");
    assert " " + ("1" + "." + "5") + "mi" + "" == " 1.5mi";
    ReadsNumber("", "", "25", true, "Ki", "");
    assert "" + ("" + "." + "25") + "Ki" + "" == ".25Ki";
  }

  predicate IsFloatText(number: string, whole: string, frac: string) {
    && Digits(whole) && Digits(frac) && |whole| + |frac| > 0
    && (number == whole + "." + frac || (frac == "" && number == whole))
  }

  lemma FloatHasParts(number: string)
    requires NumberText(number) && ParseFloat(number).Some?
    ensures exists whole, frac :: IsFloatText(number, whole, frac)
  {
    hide ValueOf;
    var dot := FirstDot(number);
    var whole, frac := number[..dot], if dot < |number| then number[dot + 1..] else "";
    assert Digits(whole) && Digits(frac);
    assert dot < |number| ==> number == whole + "." + frac;
    assert IsFloatText(number, whole, frac);
  }

  lemma PartsMakeFloat(number: string, whole: string, frac: string)
    requires IsFloatText(number, whole, frac)
    ensures ParseFloat(number).Some?
  {
    hide ParseFloat;
    ReadsFloat(whole, frac, number == whole + "." + frac);
    assert whole + "" + "" == whole;
  }

  lemma FloatTexts(number: string)
    requires NumberText(number)
    ensures ParseFloat(number).Some? <==> exists whole, frac :: IsFloatText(number, whole, frac)
  {
    hide ParseFloat, IsFloatText;
    if ParseFloat(number).Some? {
      FloatHasParts(number);
    } else if whole, frac :| IsFloatText(number, whole, frac) {
      PartsMakeFloat(number, whole, frac);
    }
  }

  // A number with a unit is read exactly when it has a digit and at most one dot.
  lemma ReadableNumbers(number: string, unit: string)
    requires UnitText(unit) && NumberText(number)
    ensures ParseValueUnit(number + unit).Some? <==> exists whole, frac :: IsFloatText(number, whole, frac)
  {
    hide ParseFloat, IsFloatText;
    var s := number + unit;
    assert IsNumeral(s[0]) && IsLetter(s[|s| - 1]);
    TrimNothing(s);
    SplitsOnce(s, number, unit);
    FloatTexts(number);
  }
}
