/** Decimals on the wire: printed in full, without trailing zeros. */
module WireDecimal {
  import opened Text

  /** (-1)^negative * coefficient * 10^exponent, as Python's Decimal stores it. */
  datatype Decimal = Decimal(negative: bool, coefficient: nat, exponent: int)

  function Pow10(n: nat): nat {
    if n == 0 then 1 else 10 * Pow10(n - 1)
  }

  function Zeros(n: nat): string {
    if n == 0 then "" else Zeros(n - 1) + "0"
  }

  // ----- The printer -----

  /** The digits of `coefficient` with a point before the last `scale` of them, padded with zeros. */
  function WithPoint(coefficient: nat, scale: nat): string
    requires scale > 0
  {
    PlacePoint(ShowNat(coefficient), scale)
  }

  function PlacePoint(digits: string, scale: nat): string {
    if |digits| > scale then digits[..|digits| - scale] + "." + digits[|digits| - scale..]
    else "0" + "." + Zeros(scale - |digits|) + digits
  }

  function Sign(d: Decimal): (s: string)
    ensures forall i :: 0 <= i < |s| ==> s[i] == '-'
  {
    if d.negative then "-" else ""
  }

  /** Python's fixed-point format. */
  function FormatFixed(d: Decimal): string {
    Sign(d) + Magnitude(d)
  }

  function Magnitude(d: Decimal): string {
    if d.exponent < 0 then WithPoint(d.coefficient, -d.exponent)
      else if d.coefficient == 0 then "0"
      else ShowNat(d.coefficient) + Zeros(d.exponent)
  }

  /** Drops every trailing `c`. */
  function StripRight(text: string, c: char): string {
    if text != [] && text[|text| - 1] == c then StripRight(text[..|text| - 1], c) else text
  }

  function Trimmed(text: string): string {
    if '.' in text then StripRight(StripRight(text, '0'), '.') else text
  }

  function ToWire(d: Decimal): string {
    Trimmed(FormatFixed(d))
  }

  // ----- The reader -----

  /** Where the point is, or the length of the text. */
  function PointAt(text: string): (n: nat)
    ensures n <= |text|
  {
    if text == [] || text[0] == '.' then 0 else 1 + PointAt(text[1..])
  }

  function ParseUnsigned(text: string): (nat, nat) {
    var p := PointAt(text);
    if p == |text| then (ReadNat(text), 0) else (ReadNat(text[..p] + text[p + 1..]), |text| - p - 1)
  }

  function Parse(text: string): Decimal {
    if text != [] && text[0] == '-' then
      var (n, scale) := ParseUnsigned(text[1..]);
      Decimal(true, n, -(scale as int))
    else
      var (n, scale) := ParseUnsigned(text);
      Decimal(false, n, -(scale as int))
  }

  // ----- Values -----

  /** n * 10^k. */
  function Shifted(n: nat, k: nat): (m: nat)
    ensures m == 0 <==> n == 0
  {
    if k == 0 then n else 10 * Shifted(n, k - 1)
  }

  /** Numerator and scale: the absolute value is n / 10^scale. */
  function Scaled(d: Decimal): (nat, nat) {
    if d.exponent >= 0 then (Shifted(d.coefficient, d.exponent), 0) else (d.coefficient, -d.exponent)
  }

  predicate SameFraction(a: (nat, nat), b: (nat, nat)) {
    a.0 * Pow10(b.1) == b.0 * Pow10(a.1)
  }

  /** The two decimals denote the same number. */
  predicate SameValue(a: Decimal, b: Decimal) {
    && SameFraction(Scaled(a), Scaled(b))
    && (a.coefficient == 0 || a.negative == b.negative)
  }

  // ----- Lowest scale -----

  /** A fraction without a trailing zero in its decimals. */
  predicate Lowest(f: (nat, nat)) {
    f.1 == 0 || f.0 % 10 != 0
  }

  function Lower(n: nat, scale: nat): (r: (nat, nat))
    ensures Lowest(r)
  {
    if scale > 0 && n % 10 == 0 then Lower(n / 10, scale - 1) else (n, scale)
  }

  lemma Pow10Positive(n: nat)
    ensures Pow10(n) > 0
  {
  }

  lemma {:induction false} Pow10Adds(a: nat, b: nat)
    ensures Pow10(a + b) == Pow10(a) * Pow10(b)
  {
    if a > 0 {
      Pow10Adds(a - 1, b);
      Associates(10, Pow10(a - 1), Pow10(b));
    }
  }

  lemma {:induction false} ShiftedIsProduct(n: nat, k: nat)
    ensures Shifted(n, k) == n * Pow10(k)
  {
    if k > 0 {
      ShiftedIsProduct(n, k - 1);
      Associates(n, 10, Pow10(k - 1));
      Associates(10, n, Pow10(k - 1));
    }
  }

  lemma Associates(a: int, b: int, c: int)
    ensures a * b * c == a * (b * c)
  {
  }

  lemma Cancel(a: int, b: int, c: int)
    requires a * c == b * c && c != 0
    ensures a == b
  {
  }

  /** Lowering the scale keeps the value. */
  lemma {:induction false} LowerSame(n: nat, scale: nat)
    ensures var r := Lower(n, scale);
            r.1 <= scale && n == r.0 * Pow10(scale - r.1)
  {
    if scale > 0 && n % 10 == 0 {
      LowerSame(n / 10, scale - 1);
      var r := Lower(n / 10, scale - 1);
      assert n == 10 * (n / 10);
      assert Pow10(scale - r.1) == 10 * Pow10(scale - 1 - r.1);
      Associates(10, r.0, Pow10(scale - 1 - r.1));
      Associates(r.0, 10, Pow10(scale - 1 - r.1));
    }
  }

  /** Two fractions in lowest scale with one value are one fraction. */
  lemma LowestUnique(a: (nat, nat), b: (nat, nat))
    requires Lowest(a) && Lowest(b) && SameFraction(a, b)
    ensures a == b
  {
    if a.1 <= b.1 {
      LowestOrdered(a, b);
    } else {
      LowestOrdered(b, a);
    }
  }

  lemma LowestOrdered(a: (nat, nat), b: (nat, nat))
    requires Lowest(a) && Lowest(b) && SameFraction(a, b) && a.1 <= b.1
    ensures a == b
  {
    var k := b.1 - a.1;
    Pow10Adds(k, a.1);
    Pow10Positive(a.1);
    Associates(a.0, Pow10(k), Pow10(a.1));
    Cancel(a.0 * Pow10(k), b.0, Pow10(a.1));
    if k > 0 {
      TimesTen(a.0, k);
    }
  }

  lemma TimesTen(n: nat, k: nat)
    requires k > 0
    ensures (n * Pow10(k)) % 10 == 0
  {
    assert n * Pow10(k) == 10 * (n * Pow10(k - 1)) by {
      Associates(n, 10, Pow10(k - 1));
      Associates(10, n, Pow10(k - 1));
    }
  }

  lemma {:induction false} SameAfterLowering(n: nat, scale: nat, b: (nat, nat))
    ensures SameFraction((n, scale), b) <==> SameFraction(Lower(n, scale), b)
  {
    LowerSame(n, scale);
    var r := Lower(n, scale);
    var k := scale - r.1;
    Pow10Adds(k, r.1);
    Pow10Positive(k);
    Rearrange(r.0, Pow10(k), Pow10(b.1));
    Rearrange(b.0, Pow10(k), Pow10(r.1));
    Associates(b.0, Pow10(k), Pow10(r.1));
    if SameFraction((n, scale), b) {
      Cancel(r.0 * Pow10(b.1), b.0 * Pow10(r.1), Pow10(k));
    }
  }

  lemma Rearrange(a: int, k: int, p: int)
    ensures (a * k) * p == (a * p) * k
  {
  }

  /** The fraction a decimal is printed from. */
  function Printed(d: Decimal): (r: (nat, nat))
    ensures Lowest(r)
  {
    if d.exponent >= 0 then Scaled(d) else Lower(d.coefficient, -d.exponent)
  }

  lemma SymmetricFraction(a: (nat, nat), b: (nat, nat))
    ensures SameFraction(a, b) <==> SameFraction(b, a)
  {
  }

  /** Two decimals have the same absolute value exactly when they are printed from the same fraction. */
  lemma PrintedDecides(a: Decimal, b: Decimal)
    ensures SameFraction(Scaled(a), Scaled(b)) <==> Printed(a) == Printed(b)
  {
    if a.exponent < 0 {
      SameAfterLowering(a.coefficient, -a.exponent, Scaled(b));
    }
    assert SameFraction(Scaled(a), Scaled(b)) <==> SameFraction(Printed(a), Scaled(b));
    SymmetricFraction(Printed(a), Scaled(b));
    if b.exponent < 0 {
      SameAfterLowering(b.coefficient, -b.exponent, Printed(a));
    }
    assert SameFraction(Scaled(b), Printed(a)) <==> SameFraction(Printed(b), Printed(a));
    SymmetricFraction(Printed(b), Printed(a));
    if SameFraction(Printed(a), Printed(b)) {
      LowestUnique(Printed(a), Printed(b));
    }
  }

  // ----- What the printer prints -----

  /** `n / 10^scale` with exactly `scale` decimals, and a point in any case. */
  function Fixed(n: nat, scale: nat): string {
    if scale == 0 then ShowNat(n) + "." else Fixed(n / 10, scale - 1) + [Digit(n % 10)]
  }

  /** The text for a fraction: no point when there are no decimals. */
  function Show(f: (nat, nat)): string {
    if f.1 == 0 then ShowNat(f.0) else Fixed(f.0, f.1)
  }

  lemma ZerosSnoc(prefix: string, k: nat)
    ensures prefix + Zeros(k) + [Digit(0)] == prefix + Zeros(k + 1)
  {
    assert [Digit(0)] == "0";
  }

  lemma {:induction false} ZeroAsFixed(k: nat)
    ensures Fixed(0, k) == "0" + "." + Zeros(k)
  {
    if k == 0 {
      assert "0" + "." + Zeros(0) == "0" + ".";
    } else {
      ZeroAsFixed(k - 1);
      ZerosSnoc("0" + ".", k - 1);
    }
  }

  lemma PadsAsFixed(n: nat, scale: nat)
    requires n < 10 && scale > 0
    ensures Fixed(n, scale) == "0" + "." + Zeros(scale - 1) + [Digit(n)]
  {
    ZeroAsFixed(scale - 1);
    assert n / 10 == 0 && n % 10 == n;
  }

  /** Placing the point by counting digits is the same as dividing by ten for each decimal. */
  lemma {:induction false} WithPointIsFixed(n: nat, scale: nat)
    requires scale > 0
    ensures WithPoint(n, scale) == Fixed(n, scale)
    decreases scale
  {
    if n < 10 {
      PadsAsFixed(n, scale);
      assert ShowNat(n) == [Digit(n)];
    } else {
      PlacePointSnoc(ShowNat(n / 10), Digit(n % 10), scale);
      if scale > 1 {
        WithPointIsFixed(n / 10, scale - 1);
      }
    }
  }

  lemma PlacePointSnoc(digits: string, last: char, scale: nat)
    requires digits != [] && scale > 0
    ensures PlacePoint(digits + [last], scale)
         == (if scale == 1 then digits + "." else PlacePoint(digits, scale - 1)) + [last]
  {
  }

  lemma DigitZero(d: nat)
    requires d < 10
    ensures Digit(d) == '0' <==> d == 0
    ensures Digit(d) != '.' && Digit(d) != '-' && IsDigit(Digit(d)) && DigitValue(Digit(d)) == d
  {
  }

  /** Stripping zeros from the text is lowering the scale of the number. */
  lemma {:induction false} StripLowers(n: nat, scale: nat)
    ensures StripRight(Fixed(n, scale), '0') == Fixed(Lower(n, scale).0, Lower(n, scale).1)
  {
    if scale == 0 {
      StripEnd(ShowNat(n), '.', '0');
    } else {
      DigitZero(n % 10);
      StripEnd(Fixed(n / 10, scale - 1), Digit(n % 10), '0');
      if n % 10 == 0 {
        StripLowers(n / 10, scale - 1);
      }
    }
  }

  lemma StripEnd(text: string, last: char, c: char)
    ensures StripRight(text + [last], c) == if last == c then StripRight(text, c) else text + [last]
  {
  }

  lemma StripPoint(f: (nat, nat))
    requires Lowest(f)
    ensures StripRight(Fixed(f.0, f.1), '.') == Show(f)
  {
    if f.1 == 0 {
      StripEnd(ShowNat(f.0), '.', '.');
      assert StripRight(ShowNat(f.0), '.') == ShowNat(f.0);
    } else {
      StripEnd(Fixed(f.0 / 10, f.1 - 1), Digit(f.0 % 10), '.');
    }
  }

  lemma {:induction false} ShowTimesTen(n: nat, k: nat)
    requires n > 0
    ensures ShowNat(Shifted(n, k)) == ShowNat(n) + Zeros(k)
  {
    if k == 0 {
      assert ShowNat(n) + Zeros(0) == ShowNat(n);
    } else {
      ShowTimesTen(n, k - 1);
      var m := Shifted(n, k - 1);
      assert (10 * m) / 10 == m && (10 * m) % 10 == 0;
      assert Digit(0) == '0';
      assert ShowNat(n) + Zeros(k) == ShowNat(n) + Zeros(k - 1) + ['0'];
    }
  }

  lemma {:induction false} FixedHasPoint(n: nat, scale: nat)
    ensures '.' in Fixed(n, scale)
    ensures Fixed(n, scale)[0] != '-'
  {
    if scale > 0 {
      FixedHasPoint(n / 10, scale - 1);
      assert Fixed(n / 10, scale - 1)[0] == Fixed(n, scale)[0];
    } else {
      assert Fixed(n, 0)[|ShowNat(n)|] == '.';
      assert Fixed(n, 0)[0] == ShowNat(n)[0] && IsDigit(ShowNat(n)[0]);
    }
  }

  lemma {:induction false} ZerosAreDigits(k: nat)
    ensures forall i :: 0 <= i < |Zeros(k)| ==> IsDigit(Zeros(k)[i])
  {
    if k > 0 {
      ZerosAreDigits(k - 1);
    }
  }

  lemma {:induction false} StripBehindPrefix(prefix: string, text: string, c: char)
    requires prefix != [] ==> prefix[|prefix| - 1] != c
    ensures StripRight(prefix + text, c) == prefix + StripRight(text, c)
  {
    if text == [] {
      assert prefix + text == prefix;
    } else if text[|text| - 1] == c {
      assert (prefix + text)[..|prefix + text| - 1] == prefix + text[..|text| - 1];
      StripBehindPrefix(prefix, text[..|text| - 1], c);
    }
  }

  /** The wire text is the sign and the fraction in lowest scale. */
  lemma WireShows(d: Decimal)
    ensures ToWire(d) == Sign(d) + Show(Printed(d))
  {
    if d.exponent < 0 {
      WireStrips(d, Printed(d));
    } else {
      WireKeeps(d, Printed(d));
    }
  }

  lemma WireStrips(d: Decimal, f: (nat, nat))
    requires d.exponent < 0 && f == Lower(d.coefficient, -d.exponent)
    ensures ToWire(d) == Sign(d) + Show(f)
  {
    FormatsFixed(d);
    TrimmedFixed(FormatFixed(d), Sign(d), d.coefficient, -d.exponent);
  }

  lemma TrimmedFixed(text: string, sign: string, n: nat, scale: nat)
    requires forall i :: 0 <= i < |sign| ==> sign[i] == '-'
    requires text == sign + Fixed(n, scale)
    ensures Trimmed(text) == sign + Show(Lower(n, scale))
  {
    FixedHasPoint(n, scale);
    PointBehind(sign, Fixed(n, scale));
    StripBoth(sign, n, scale);
  }

  lemma FormatsFixed(d: Decimal)
    requires d.exponent < 0
    ensures FormatFixed(d) == Sign(d) + Fixed(d.coefficient, -d.exponent)
  {
    WithPointIsFixed(d.coefficient, -d.exponent);
  }

  lemma PointBehind(prefix: string, text: string)
    ensures '.' in text ==> '.' in prefix + text
  {
  }

  lemma StripBoth(sign: string, n: nat, scale: nat)
    requires forall i :: 0 <= i < |sign| ==> sign[i] == '-'
    ensures StripRight(StripRight(sign + Fixed(n, scale), '0'), '.') == sign + Show(Lower(n, scale))
  {
    var f := Lower(n, scale);
    StripBehindPrefix(sign, Fixed(n, scale), '0');
    StripLowers(n, scale);
    StripBehindPrefix(sign, Fixed(f.0, f.1), '.');
    StripPoint(f);
  }

  lemma WireKeeps(d: Decimal, f: (nat, nat))
    requires d.exponent >= 0 && f == Scaled(d)
    ensures ToWire(d) == Sign(d) + Show(f)
  {
    var n := Shifted(d.coefficient, d.exponent);
    if d.coefficient == 0 {
      assert n == 0 && ShowNat(0) == "0";
    } else {
      ShowTimesTen(d.coefficient, d.exponent);
    }
    assert FormatFixed(d) == Sign(d) + ShowNat(n);
    assert '.' !in FormatFixed(d);
  }

  // ----- Reading it back -----

  lemma {:induction false} PointAfter(digits: string, rest: string)
    requires forall i :: 0 <= i < |digits| ==> digits[i] != '.'
    requires rest == [] || rest[0] == '.'
    ensures PointAt(digits + rest) == |digits|
  {
    if digits == [] {
      assert digits + rest == rest;
    } else {
      assert (digits + rest)[1..] == digits[1..] + rest;
      PointAfter(digits[1..], rest);
    }
  }

  lemma ReadSnoc(text: string, d: nat)
    requires d < 10
    ensures ReadNat(text + [Digit(d)]) == 10 * ReadNat(text) + d
  {
    DigitZero(d);
    assert (text + [Digit(d)])[..|text|] == text;
  }

  /** The integer digits of a fixed-point text. */
  function Whole(n: nat, scale: nat): string {
    if scale == 0 then ShowNat(n) else Whole(n / 10, scale - 1)
  }

  /** Its decimals. */
  function Decimals(n: nat, scale: nat): string {
    if scale == 0 then "" else Decimals(n / 10, scale - 1) + [Digit(n % 10)]
  }

  lemma {:induction false} FixedSplits(n: nat, scale: nat)
    ensures Fixed(n, scale) == Whole(n, scale) + "." + Decimals(n, scale)
  {
    if scale == 0 {
      assert Whole(n, 0) + "." + Decimals(n, 0) == ShowNat(n) + ".";
    } else {
      FixedSplits(n / 10, scale - 1);
      var front, tail := Whole(n / 10, scale - 1) + ".", Decimals(n / 10, scale - 1);
      assert front + (tail + [Digit(n % 10)]) == (front + tail) + [Digit(n % 10)];
    }
  }

  lemma {:induction false} WholeHasNoPoint(n: nat, scale: nat)
    ensures forall i :: 0 <= i < |Whole(n, scale)| ==> Whole(n, scale)[i] != '.'
  {
    if scale == 0 {
      ReadShow(n);
    } else {
      WholeHasNoPoint(n / 10, scale - 1);
    }
  }

  lemma {:induction false} DigitsRead(n: nat, scale: nat)
    ensures |Decimals(n, scale)| == scale
    ensures ReadNat(Whole(n, scale) + Decimals(n, scale)) == n
  {
    if scale == 0 {
      ReadShow(n);
      assert Whole(n, 0) + Decimals(n, 0) == ShowNat(n);
    } else {
      DigitsRead(n / 10, scale - 1);
      var whole, tail := Whole(n / 10, scale - 1), Decimals(n / 10, scale - 1);
      ReadSnoc(whole + tail, n % 10);
      assert whole + (tail + [Digit(n % 10)]) == (whole + tail) + [Digit(n % 10)];
    }
  }

  /** Reading a printed fraction gives exactly that fraction. */
  lemma ParseShow(f: (nat, nat))
    ensures ParseUnsigned(Show(f)) == f
    ensures Show(f) != [] && Show(f)[0] != '-'
  {
    if f.1 == 0 {
      ReadShow(f.0);
      ParseWhole(ShowNat(f.0));
    } else {
      FixedSplits(f.0, f.1);
      WholeHasNoPoint(f.0, f.1);
      DigitsRead(f.0, f.1);
      FixedHasPoint(f.0, f.1);
      ParsePointed(Whole(f.0, f.1), Decimals(f.0, f.1));
    }
  }

  lemma ParseWhole(digits: string)
    requires forall i :: 0 <= i < |digits| ==> digits[i] != '.'
    ensures ParseUnsigned(digits) == (ReadNat(digits), 0)
  {
    PointAfter(digits, "");
    assert digits + "" == digits;
  }

  lemma ParsePointed(whole: string, tail: string)
    requires forall i :: 0 <= i < |whole| ==> whole[i] != '.'
    ensures ParseUnsigned(whole + "." + tail) == (ReadNat(whole + tail), |tail|)
  {
    var text := whole + "." + tail;
    PointAfter(whole, "." + tail);
    assert text == whole + ("." + tail);
    assert text[..|whole|] == whole && text[|whole| + 1..] == tail;
  }

  lemma ParseNegative(text: string)
    ensures var f := ParseUnsigned(text);
            Parse("-" + text) == Decimal(true, f.0, -(f.1 as int))
  {
  }

  lemma ParsePositive(text: string)
    requires text == [] || text[0] != '-'
    ensures var f := ParseUnsigned(text);
            Parse(text) == Decimal(false, f.0, -(f.1 as int))
  {
  }

  /** What a reader of the wire text of `d` gets. */
  function ReadBack(d: Decimal): Decimal {
    Decimal(d.negative, Printed(d).0, -(Printed(d).1 as int))
  }

  lemma ParseWire(d: Decimal)
    ensures Parse(ToWire(d)) == ReadBack(d)
  {
    WireShows(d);
    ParseShow(Printed(d));
    if d.negative {
      assert ToWire(d) == "-" + Show(Printed(d));
      ParseNegative(Show(Printed(d)));
    } else {
      assert ToWire(d) == Show(Printed(d));
      ParsePositive(Show(Printed(d)));
    }
  }

  /** Round trip: for every finite decimal, reading its wire text gives back the same number (and the same sign,
      even of zero). */
  lemma WireRoundTrip(d: Decimal)
    ensures SameValue(Parse(ToWire(d)), d)
    ensures Parse(ToWire(d)).negative == d.negative
  {
    ParseWire(d);
    ReadBackKeeps(d);
  }

  lemma ReadBackScaled(d: Decimal)
    ensures Scaled(ReadBack(d)) == Printed(d)
  {
  }

  lemma ReadBackKeeps(d: Decimal)
    ensures SameValue(ReadBack(d), d)
  {
    ReadBackScaled(d);
    if d.exponent < 0 {
      LowerSame(d.coefficient, -d.exponent);
      SameAfterLowering(d.coefficient, -d.exponent, Printed(d));
      assert SameFraction(Printed(d), Printed(d));
      SymmetricFraction(Scaled(d), Printed(d));
    }
  }

  lemma ReadBackInjective(a: Decimal, b: Decimal)
    requires ReadBack(a) == ReadBack(b)
    ensures Printed(a) == Printed(b) && a.negative == b.negative
  {
    assert -(Printed(a).1 as int) == -(Printed(b).1 as int);
  }

  lemma SameTextReadsSame(a: Decimal, b: Decimal, text: string)
    requires ToWire(a) == text && ToWire(b) == text
    ensures ReadBack(a) == ReadBack(b)
  {
    ParseWire(a);
    ParseWire(b);
  }

  lemma SameFractionSameText(a: Decimal, b: Decimal)
    requires Printed(a) == Printed(b) && a.negative == b.negative
    ensures ToWire(a) == ToWire(b)
  {
    WireShows(a);
    WireShows(b);
  }

  /** Canonical form: two decimals print identically exactly when they are the same number and, if that number is
      zero, have the same sign; so for decimals that are not negative, exactly when they are equal. */
  lemma WireIsCanonical(a: Decimal, b: Decimal)
    ensures ToWire(a) == ToWire(b) <==> SameValue(a, b) && a.negative == b.negative
  {
    PrintedDecides(a, b);
    if ToWire(a) == ToWire(b) {
      SameTextReadsSame(a, b, ToWire(a));
      ReadBackInjective(a, b);
    } else if a.negative == b.negative && Printed(a) == Printed(b) {
      SameFractionSameText(a, b);
    }
  }
}
