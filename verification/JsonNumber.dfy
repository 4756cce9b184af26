/** Which JSON numbers fit PostgreSQL's numeric type, decided on decimal positions alone. */
module JsonNumber {
  import opened Basics

  // ----- the check -----

  function IndexOf(s: string, marks: string): (i: nat)
    ensures i <= |s| && (i < |s| ==> s[i] in marks) && forall j :: 0 <= j < i ==> s[j] !in marks
  {
    if |s| == 0 || s[0] in marks then 0 else 1 + IndexOf(s[1..], marks)
  }

  function Without(s: string, c: char): string {
    if |s| == 0 then [] else (if s[0] == c then [] else [s[0]]) + Without(s[1..], c)
  }

  function LeadingZeros(s: string): (n: nat)
    ensures n <= |s|
  {
    if |s| == 0 || s[0] != '0' then 0 else 1 + LeadingZeros(s[1..])
  }

  predicate IsDigit(c: char) {
    '0' <= c <= '9'
  }

  predicate AllDigits(s: string) {
    forall i :: 0 <= i < |s| ==> IsDigit(s[i])
  }

  function DigitValue(c: char): nat
    requires IsDigit(c)
  {
    (c - '0') as nat
  }

  function NaturalOf(ds: string): nat
    requires AllDigits(ds)
  {
    if |ds| == 0 then 0 else 10 * NaturalOf(ds[..|ds| - 1]) + DigitValue(ds[|ds| - 1])
  }

  // Signed decimal text as a 32-bit integer; None when malformed or out of range.
  function ParseInt32(t: string): Option<int> {
    var ds := if t != [] && (t[0] == '+' || t[0] == '-') then t[1..] else t;
    if ds == [] || !AllDigits(ds) then None
    else
      var v: int := if t[0] == '-' then 0 - NaturalOf(ds) else NaturalOf(ds);
      if -0x8000_0000 <= v < 0x8000_0000 then Some(v) else None
  }

  function Unsigned(s: string): string {
    if s != [] && s[0] == '-' then s[1..] else s
  }

  // The text before the exponent, and the exponent.
  function Split(number: string): Option<(string, int)> {
    var t := Unsigned(number);
    var i := IndexOf(t, "eE");
    if i == |t| then Some((t, 0))
    else
      match ParseInt32(t[i + 1..])
      case None => None
      case Some(exponent) => Some((t[..i], exponent))
  }

  // `maxWhole` and `maxScale` are the digit limits before and after the point.
  function RepresentableWithin(number: string, maxWhole: nat, maxScale: nat): bool {
    match Split(number)
    case None => false
    case Some((s, exponent)) => FitsDecimal(s, exponent, maxWhole, maxScale)
  }

  function FitsDecimal(s: string, exponent: int, maxWhole: nat, maxScale: nat): bool {
    if exponent > maxWhole + |s| || exponent < 0 - maxScale - |s| then false
    else
      var point := IndexOf(s, ".");
      var fraction := if point < |s| then |s| - point - 1 else 0;
      var digits := Without(s, '.');
      var leading := LeadingZeros(digits);
      var whole := if leading == |digits| then 0 else point + exponent - leading;
      whole <= maxWhole && fraction - exponent <= maxScale
  }

  // ----- numbers of section 6 of RFC 8259 -----

  datatype Exponent = Exponent(mark: char, sign: Option<char>, digits: string)

  datatype Number = Number(negative: bool, whole: string, fraction: Option<string>, exponent: Option<Exponent>)

  predicate WellFormed(n: Number) {
    && n.whole != [] && AllDigits(n.whole) && (n.whole[0] == '0' ==> |n.whole| == 1)
    && (n.fraction.Some? ==> n.fraction.value != [] && AllDigits(n.fraction.value))
    && (n.exponent.Some? ==>
          var e := n.exponent.value;
          && e.mark in "eE" && e.digits != [] && AllDigits(e.digits)
          && (e.sign.Some? ==> e.sign.value in "+-"))
  }

  function Mantissa(n: Number): string {
    n.whole + if n.fraction.Some? then "." + n.fraction.value else ""
  }

  function ExponentText(e: Exponent): string {
    (if e.sign.Some? then [e.sign.value] else "") + e.digits
  }

  function ExponentPart(n: Number): string {
    if n.exponent.Some? then [n.exponent.value.mark] + ExponentText(n.exponent.value) else ""
  }

  function Render(n: Number): string {
    (if n.negative then "-" else "") + (Mantissa(n) + ExponentPart(n))
  }

  // |value| is Coefficient * 10^(Power - Scale).
  function Fraction(n: Number): string {
    if n.fraction.Some? then n.fraction.value else ""
  }

  function Coefficient(n: Number): nat
    requires WellFormed(n)
  {
    NaturalOf(n.whole + Fraction(n))
  }

  function Power(n: Number): int
    requires WellFormed(n)
  {
    if n.exponent.None? then 0
    else
      var e := n.exponent.value;
      if e.sign == Some('-') then 0 - NaturalOf(e.digits) else NaturalOf(e.digits)
  }

  // The number of decimal places as written; negative when none are needed.
  function WrittenScale(n: Number): int
    requires WellFormed(n)
  {
    |Fraction(n)| - Power(n)
  }

  function Pow10(n: nat): nat {
    if n == 0 then 1 else 10 * Pow10(n - 1)
  }

  // m * 10^k.
  function Shifted(m: nat, k: nat): nat {
    if k == 0 then m else 10 * Shifted(m, k - 1)
  }

  // m * 10^x < 10^k, in whole numbers.
  predicate LessThanPow10(m: nat, x: int, k: nat) {
    if x >= 0 then Shifted(m, x) < Pow10(k) else m < Pow10(k - x)
  }

  // ----- powers of ten -----

  lemma {:induction false} ShiftedIsProduct(m: nat, k: nat)
    ensures Shifted(m, k) == m * Pow10(k)
  {
    if k > 0 {
      ShiftedIsProduct(m, k - 1);
    }
  }

  lemma {:induction false} Pow10Monotone(a: nat, b: nat)
    requires a <= b
    ensures 0 < Pow10(a) <= Pow10(b)
    decreases b
  {
    if b > 0 && a < b {
      Pow10Monotone(a, b - 1);
    } else if a > 0 {
      Pow10Monotone(a - 1, b - 1);
    }
  }

  lemma {:induction false} ShiftedDigits(m: nat, d: nat, k: nat)
    requires d >= 1 && Pow10(d - 1) <= m < Pow10(d)
    ensures Pow10(d - 1 + k) <= Shifted(m, k) < Pow10(d + k)
  {
    if k > 0 {
      ShiftedDigits(m, d, k - 1);
    }
  }

  // A number of d digits is below 10^k after a shift by x exactly when d + x <= k.
  lemma {:induction false} LessByDigits(m: nat, d: nat, x: int, k: nat)
    requires d >= 1 && Pow10(d - 1) <= m < Pow10(d)
    ensures LessThanPow10(m, x, k) <==> d + x <= k
  {
    if x >= 0 {
      ShiftedDigits(m, d, x);
      if d + x <= k {
        Pow10Monotone(d + x, k);
      } else {
        Pow10Monotone(k, d - 1 + x);
      }
    } else if d + x <= k {
      Pow10Monotone(d, k - x);
    } else {
      Pow10Monotone(k - x, d - 1);
    }
  }

  lemma {:induction false} LeadingZerosAppend(ds: string, c: char)
    ensures LeadingZeros(ds + [c]) ==
              if LeadingZeros(ds) < |ds| then LeadingZeros(ds) else if c == '0' then |ds| + 1 else |ds|
  {
    if |ds| == 0 {
      assert ds + [c] == [c];
    } else {
      assert (ds + [c])[1..] == ds[1..] + [c];
      LeadingZerosAppend(ds[1..], c);
    }
  }

  // Dropping leading zeros gives the number of digits of the value.
  lemma {:induction false} DigitCount(ds: string)
    requires AllDigits(ds)
    ensures LeadingZeros(ds) == |ds| ==> NaturalOf(ds) == 0
    ensures LeadingZeros(ds) < |ds| ==>
              Pow10(|ds| - LeadingZeros(ds) - 1) <= NaturalOf(ds) < Pow10(|ds| - LeadingZeros(ds))
  {
    if |ds| > 0 {
      var init, c := ds[..|ds| - 1], ds[|ds| - 1];
      assert ds == init + [c];
      DigitCount(init);
      LeadingZerosAppend(init, c);
      assert Pow10(0) == 1 && Pow10(1) == 10;
    }
  }

  // ----- taking the text apart -----

  lemma {:induction false} WithoutConcat(a: string, b: string, c: char)
    ensures Without(a + b, c) == Without(a, c) + Without(b, c)
  {
    if |a| == 0 {
      assert a + b == b;
    } else {
      assert (a + b)[1..] == a[1..] + b;
      WithoutConcat(a[1..], b, c);
    }
  }

  lemma {:induction false} WithoutDigits(ds: string, c: char)
    requires AllDigits(ds) && !IsDigit(c)
    ensures Without(ds, c) == ds
  {
    if |ds| > 0 {
      WithoutDigits(ds[1..], c);
    }
  }

  lemma {:induction false} IndexOfConcat(a: string, b: string, marks: string)
    requires forall j :: 0 <= j < |a| ==> a[j] !in marks
    requires b == [] || b[0] in marks
    ensures IndexOf(a + b, marks) == |a|
  {
    if |a| == 0 {
      assert a + b == b;
    } else {
      assert (a + b)[1..] == a[1..] + b;
      IndexOfConcat(a[1..], b, marks);
    }
  }

  lemma {:induction false} WithoutPoint(a: string, b: string)
    requires AllDigits(a) && AllDigits(b)
    ensures Without(a + ("." + b), '.') == a + b
  {
    WithoutDigits(a, '.');
    WithoutDigits(b, '.');
    var rest := "." + b;
    WithoutConcat(a, rest, '.');
    assert rest[0] == '.' && rest[1..] == b;
    assert Without(rest, '.') == [] + b == b;
  }

  // The point is found right after the whole part, and removing it leaves the
  // written digits.
  lemma {:induction false} MantissaParts(n: Number)
    requires WellFormed(n)
    ensures Without(Mantissa(n), '.') == n.whole + Fraction(n)
    ensures IndexOf(Mantissa(n), ".") == |n.whole|
    ensures |Fraction(n)| == if |n.whole| < |Mantissa(n)| then |Mantissa(n)| - |n.whole| - 1 else 0
  {
    if n.fraction.Some? {
      WithoutPoint(n.whole, n.fraction.value);
      IndexOfConcat(n.whole, "." + n.fraction.value, ".");
    } else {
      WithoutDigits(n.whole, '.');
      IndexOfConcat(n.whole, "", ".");
      assert n.whole + "" == n.whole;
    }
  }

  lemma {:induction false} ParseDigits(t: string, ds: string)
    requires ds != [] && AllDigits(ds) && (t == ds || t == "+" + ds || t == "-" + ds)
    ensures var v: int := if t[0] == '-' then 0 - NaturalOf(ds) else NaturalOf(ds);
            ParseInt32(t) == if -0x8000_0000 <= v < 0x8000_0000 then Some(v) else None
  {
    assert IsDigit(ds[0]);
    assert t != ds ==> t[1..] == ds;
  }

  lemma {:induction false} ExponentParses(n: Number)
    requires WellFormed(n) && n.exponent.Some?
    ensures ParseInt32(ExponentText(n.exponent.value))
         == if -0x8000_0000 <= Power(n) < 0x8000_0000 then Some(Power(n)) else None
  {
    var e := n.exponent.value;
    var t := ExponentText(e);
    assert IsDigit(e.digits[0]);
    assert t == match e.sign case None => e.digits case Some(c) => [c] + e.digits;
    ParseDigits(t, e.digits);
  }

  // The text without its sign is the mantissa, then the exponent part.
  lemma {:induction false} RenderParts(n: Number)
    requires WellFormed(n)
    ensures Unsigned(Render(n)) == Mantissa(n) + ExponentPart(n)
    ensures IndexOf(Unsigned(Render(n)), "eE") == |Mantissa(n)| <= |Render(n)|
  {
    var m, tail := Mantissa(n), ExponentPart(n);
    assert (m + tail)[0] == n.whole[0] && IsDigit(n.whole[0]);
    forall j | 0 <= j < |m| ensures m[j] !in "eE" {
      assert IsDigit(m[j]) || m[j] == '.';
    }
    IndexOfConcat(m, tail, "eE");
  }

  // ----- main results -----

  lemma {:induction false} SplitText(number: string, m: string, tail: string)
    requires Unsigned(number) == m + tail && IndexOf(m + tail, "eE") == |m|
    ensures tail == [] ==> Split(number) == Some((m, 0))
    ensures tail != [] && ParseInt32(tail[1..]).None? ==> Split(number) == None
    ensures tail != [] && ParseInt32(tail[1..]).Some? ==> Split(number) == Some((m, ParseInt32(tail[1..]).value))
  {
    var t := m + tail;
    assert t[..|m|] == m;
    if |tail| == 0 {
      assert t == m;
    } else {
      assert t[|m| + 1..] == tail[1..];
    }
  }

  lemma {:induction false} SplitRender(n: Number)
    requires WellFormed(n)
    ensures Split(Render(n)) == if -0x8000_0000 <= Power(n) < 0x8000_0000 then Some((Mantissa(n), Power(n))) else None
  {
    RenderParts(n);
    SplitText(Render(n), Mantissa(n), ExponentPart(n));
    if n.exponent.Some? {
      ExponentParses(n);
      assert ExponentPart(n)[1..] == ExponentText(n.exponent.value);
    }
  }

  lemma {:induction false} FitsMeaning(n: Number, power: int, maxWhole: nat, maxScale: nat)
    requires WellFormed(n)
    ensures var leading, size := LeadingZeros(n.whole + Fraction(n)), |n.whole| + |Fraction(n)|;
            FitsDecimal(Mantissa(n), power, maxWhole, maxScale) <==>
              && 0 - maxScale - |Mantissa(n)| <= power <= maxWhole + |Mantissa(n)|
              && (leading < size ==> |n.whole| + power - leading <= maxWhole)
              && |Fraction(n)| - power <= maxScale
  {
    MantissaParts(n);
  }

  // The check in terms of digit counts: `text` is the length of the mantissa.
  predicate Bounds(whole: nat, fraction: nat, leading: nat, text: nat, power: int, maxWhole: nat, maxScale: nat) {
    && -0x8000_0000 <= power < 0x8000_0000
    && 0 - maxScale - text <= power <= maxWhole + text
    && (leading < whole + fraction ==> whole + power - leading <= maxWhole)
    && fraction - power <= maxScale
  }

  lemma {:induction false} CheckMeaning(n: Number, maxWhole: nat, maxScale: nat)
    requires WellFormed(n)
    ensures RepresentableWithin(Render(n), maxWhole, maxScale) <==>
              Bounds(|n.whole|, |Fraction(n)|, LeadingZeros(n.whole + Fraction(n)), |Mantissa(n)|, Power(n), maxWhole, maxScale)
  {
    SplitRender(n);
    FitsMeaning(n, Power(n), maxWhole, maxScale);
  }

  // The 32-bit parse and the exponent guard are implied by the other bounds.
  lemma {:induction false} GuardIsImplied(whole: nat, fraction: nat, leading: nat, text: nat, power: int, maxWhole: nat, maxScale: nat)
    requires leading < whole + fraction <= text
    requires maxWhole + text < 0x8000_0000 && maxScale + text < 0x8000_0000
    ensures Bounds(whole, fraction, leading, text, power, maxWhole, maxScale)
       <==> (whole + fraction - leading + (power - fraction) <= maxWhole && fraction - power <= maxScale)
  {
  }

  lemma {:induction false} SignificantDigitsOf(ds: string) returns (size: nat)
    requires AllDigits(ds)
    ensures LeadingZeros(ds) + size == |ds|
    ensures size == 0 ==> NaturalOf(ds) == 0
    ensures size > 0 ==> 0 < Pow10(size - 1) <= NaturalOf(ds) < Pow10(size)
  {
    size := |ds| - LeadingZeros(ds);
    DigitCount(ds);
    if size > 0 {
      Pow10Monotone(0, size - 1);
    }
  }

  // The written digits without leading zeros, and the value they stand for.
  lemma {:induction false} SignificantDigits(n: Number) returns (size: nat)
    requires WellFormed(n)
    ensures LeadingZeros(n.whole + Fraction(n)) + size == |n.whole| + |Fraction(n)| <= |Mantissa(n)| <= |Render(n)|
    ensures size == 0 ==> Coefficient(n) == 0
    ensures size > 0 ==> 0 < Pow10(size - 1) <= Coefficient(n) < Pow10(size)
  {
    RenderParts(n);
    size := SignificantDigitsOf(n.whole + Fraction(n));
  }

  lemma {:induction false} MagnitudeByDigits(n: Number, maxWhole: nat)
    requires WellFormed(n) && Coefficient(n) > 0
    ensures LessThanPow10(Coefficient(n), 0 - WrittenScale(n), maxWhole) <==>
              |n.whole| + |Fraction(n)| - LeadingZeros(n.whole + Fraction(n)) - WrittenScale(n) <= maxWhole
    ensures LeadingZeros(n.whole + Fraction(n)) < |n.whole| + |Fraction(n)|
  {
    var size := SignificantDigits(n);
    LessByDigits(Coefficient(n), size, 0 - WrittenScale(n), maxWhole);
  }

  // For a number with a nonzero digit the check is exact: the early exponent
  // guard and the 32-bit parse refuse nothing that fits.
  lemma {:induction false} ExactWhenNonzero(n: Number, maxWhole: nat, maxScale: nat)
    requires WellFormed(n) && Coefficient(n) > 0
    requires maxWhole + |Render(n)| < 0x8000_0000 && maxScale + |Render(n)| < 0x8000_0000
    ensures RepresentableWithin(Render(n), maxWhole, maxScale) <==>
              LessThanPow10(Coefficient(n), 0 - WrittenScale(n), maxWhole) && WrittenScale(n) <= maxScale
  {
    var size := SignificantDigits(n);
    MagnitudeByDigits(n, maxWhole);
    CheckMeaning(n, maxWhole, maxScale);
    GuardIsImplied(|n.whole|, |Fraction(n)|, LeadingZeros(n.whole + Fraction(n)), |Mantissa(n)|, Power(n), maxWhole, maxScale);
  }

  // For zero the check accepts exactly the numbers whose scale fits and whose
  // exponent passes the guard, so what it accepts is always storable.
  lemma {:induction false} ExactWhenZero(n: Number, maxWhole: nat, maxScale: nat)
    requires WellFormed(n) && Coefficient(n) == 0
    requires maxWhole + |Render(n)| < 0x8000_0000 && maxScale + |Render(n)| < 0x8000_0000
    ensures RepresentableWithin(Render(n), maxWhole, maxScale) <==>
              WrittenScale(n) <= maxScale && Power(n) <= maxWhole + |Mantissa(n)|
  {
    var size := SignificantDigits(n);
    CheckMeaning(n, maxWhole, maxScale);
  }

  // The limits of PostgreSQL's numeric type.
  predicate Representable(number: string) {
    RepresentableWithin(number, 131072, 16383)
  }

  // Every number within the event size limit: it is accepted exactly when its
  // magnitude is below 10^131072 and its written scale is at most 16383.
  lemma {:induction false} RepresentableIsExact(n: Number)
    requires WellFormed(n) && |Render(n)| <= 262144 && Coefficient(n) > 0
    ensures Representable(Render(n)) <==>
              LessThanPow10(Coefficient(n), 0 - WrittenScale(n), 131072) && WrittenScale(n) <= 16383
  {
    ExactWhenNonzero(n, 131072, 16383);
  }

  lemma {:induction false} NaturalStep(ds: string, d: char)
    requires AllDigits(ds) && IsDigit(d)
    ensures AllDigits(ds + [d]) && NaturalOf(ds + [d]) == 10 * NaturalOf(ds) + DigitValue(d)
  {
    assert (ds + [d])[..|ds|] == ds;
  }

  lemma {:induction false} ExponentValue(t: string)
    requires t == ['1', '3', '1', '0', '7', '4']
    ensures AllDigits(t) && NaturalOf(t) == 131074
  {
    NaturalStep([], '1');
    NaturalStep([] + ['1'], '3');
    NaturalStep([] + ['1'] + ['3'], '1');
    NaturalStep([] + ['1'] + ['3'] + ['1'], '0');
    NaturalStep([] + ['1'] + ['3'] + ['1'] + ['0'], '7');
    NaturalStep([] + ['1'] + ['3'] + ['1'] + ['0'] + ['7'], '4');
    assert t == [] + ['1'] + ['3'] + ['1'] + ['0'] + ['7'] + ['4'];
  }

  lemma {:induction false} ZeroBeyondGuard(n: Number, maxWhole: nat, maxScale: nat)
    requires WellFormed(n) && Coefficient(n) == 0 && Power(n) > maxWhole + |Mantissa(n)|
    requires maxWhole + |Render(n)| < 0x8000_0000 && maxScale + |Render(n)| < 0x8000_0000
    ensures !RepresentableWithin(Render(n), maxWhole, maxScale)
  {
    ExactWhenZero(n, maxWhole, maxScale);
  }

  lemma {:induction false} LargeZero() returns (n: Number)
    ensures WellFormed(n) && Render(n) == "0e131074" && |Mantissa(n)| == 1
    ensures Coefficient(n) == 0 && Power(n) == 131074 && WrittenScale(n) == -131074
  {
    var digits := ['1', '3', '1', '0', '7', '4'];
    n := Number(false, ['0'], None, Some(Exponent('e', None, digits)));
    ExponentValue(digits);
    NaturalStep([], '0');
    assert n.whole + Fraction(n) == [] + ['0'];
  }

  // A zero that would fit and is refused, because of the exponent guard.
  lemma {:induction false} AFittingZeroIsRefused() returns (n: Number)
    ensures WellFormed(n) && Render(n) == "0e131074"
    ensures Coefficient(n) == 0 && WrittenScale(n) <= 16383 && !Representable(Render(n))
  {
    n := LargeZero();
    ZeroBeyondGuard(n, 131072, 16383);
  }
}
