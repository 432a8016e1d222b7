/** PHP's reading of numeric strings: is_numeric, and the integer that
    intval makes of a string. */
module PhpNumeric {
  import opened Common

  /** m times 10 to the power e. */
  function Scale(m: real, e: int): real
    decreases if e < 0 then -e else e
  {
    if e == 0 then m else if e > 0 then 10.0 * Scale(m, e - 1) else Scale(m, e + 1) / 10.0
  }

  /** Where a scan of PHP's numeric-string grammar stands: in leading
      whitespace, after the sign, in the whole digits, after a point with no
      whole digits before it, in the fraction digits, after e/E, after the
      exponent's sign, in the exponent digits, in trailing whitespace. */
  datatype Phase = Leading | Signed | Whole | Point | Fraction | ExpMark | ExpSign | ExpDigits | Trailing

  /** A scan so far: its phase and sign, the digits read before the exponent
      as one number (`mantissa`) with `places` of them after the point, and
      the exponent's sign and digits. */
  datatype Scan = Scan(phase: Phase, negative: bool, mantissa: nat, places: nat,
                       expNegative: bool, exponent: nat)

  const ScanStart := Scan(Leading, false, 0, 0, false, 0)

  /** The scan after one more character; None once the text cannot be numeric. */
  function Step(st: Scan, c: char): Option<Scan>
  {
    var blank := c in CWhitespace;
    var digit := if IsDigit(c) then DigitValue(c) else 0;
    match st.phase
    case Leading =>
      if blank then Some(st)
      else if c == '+' || c == '-' then Some(st.(phase := Signed, negative := c == '-'))
      else if IsDigit(c) then Some(st.(phase := Whole, mantissa := digit))
      else if c == '.' then Some(st.(phase := Point))
      else None
    case Signed =>
      if IsDigit(c) then Some(st.(phase := Whole, mantissa := digit))
      else if c == '.' then Some(st.(phase := Point))
      else None
    case Whole =>
      if IsDigit(c) then Some(st.(mantissa := st.mantissa * 10 + digit))
      else if c == '.' then Some(st.(phase := Fraction))
      else if c == 'e' || c == 'E' then Some(st.(phase := ExpMark))
      else if blank then Some(st.(phase := Trailing))
      else None
    case Point =>
      if IsDigit(c) then Some(st.(phase := Fraction, mantissa := digit, places := 1)) else None
    case Fraction =>
      if IsDigit(c) then Some(st.(mantissa := st.mantissa * 10 + digit, places := st.places + 1))
      else if c == 'e' || c == 'E' then Some(st.(phase := ExpMark))
      else if blank then Some(st.(phase := Trailing))
      else None
    case ExpMark =>
      if c == '+' || c == '-' then Some(st.(phase := ExpSign, expNegative := c == '-'))
      else if IsDigit(c) then Some(st.(phase := ExpDigits, exponent := digit))
      else None
    case ExpSign =>
      if IsDigit(c) then Some(st.(phase := ExpDigits, exponent := digit)) else None
    case ExpDigits =>
      if IsDigit(c) then Some(st.(exponent := st.exponent * 10 + digit))
      else if blank then Some(st.(phase := Trailing))
      else None
    case Trailing =>
      if blank then Some(st) else None
  }

  /** The scan after the characters of `s` from position `i` on. */
  function Run(s: string, i: nat, st: Scan): Option<Scan>
    requires i <= |s|
    decreases |s| - i
  {
    if i == |s| then Some(st)
    else
      match Step(st, s[i])
      case None => None
      case Some(next) => Run(s, i + 1, next)
  }

  /** The phases a numeric string may end in: after a digit, or in the
      whitespace that follows one. */
  predicate Complete(p: Phase)
  {
    p == Whole || p == Fraction || p == ExpDigits || p == Trailing
  }

  /** The number a complete scan read. */
  function ScanValue(st: Scan): real
  {
    var e: int := if st.expNegative then -(st.exponent as int) else st.exponent;
    var m := Scale(st.mantissa as real, e - st.places);
    if st.negative then -m else m
  }

  /** PHP's is_numeric on a string, with the number it denotes: whitespace
      around, an optional sign, digits with at most one point and at least
      one digit, and an optional exponent. */
  function NumericText(s: string): Option<real>
  {
    match Run(s, 0, ScanStart)
    case None => None
    case Some(st) => if Complete(st.phase) then Some(ScanValue(st)) else None
  }

  /** Digits read left to right onto `m`. */
  function Accumulate(m: nat, w: string): nat
    requires AllDigits(w)
  {
    if w == [] then m else Accumulate(m, w[..|w| - 1]) * 10 + DigitValue(w[|w| - 1])
  }

  /** The first digit read goes onto `m` before the rest. */
  lemma {:induction false} AccumulateFirst(m: nat, w: string)
    requires w != [] && AllDigits(w)
    ensures Accumulate(m, w) == Accumulate(m * 10 + DigitValue(w[0]), w[1..])
    decreases |w|
  {
    if |w| > 1 {
      AccumulateFirst(m, w[..|w| - 1]);
      assert w[..|w| - 1][1..] == w[1..][..|w[1..]| - 1];
    }
  }

  /** Reading a printed natural number gives that number. */
  lemma {:induction false} AccumulateDecimal(n: nat)
    ensures Accumulate(0, NatToDecimal(n)) == n
  {
    if n >= 10 {
      AccumulateDecimal(n / 10);
      var w := NatToDecimal(n);
      assert w[..|w| - 1] == NatToDecimal(n / 10);
    }
  }

  /** Reading printed fraction digits after a whole part `m`, and moving the
      point back over them, gives `m` plus the fraction. */
  lemma {:induction false} AccumulateFraction(m: nat, f: seq<Digit>)
    ensures Scale(Accumulate(m, FractionText(f)) as real, -|f|) == m as real + FractionDigitsValue(f)
    decreases |f|
  {
    if f != [] {
      var s := FractionText(f);
      assert s[0] == DigitChar(f[0]) && s[1..] == FractionText(f[1..]);
      var next := m * 10 + f[0];
      AccumulateFirst(m, s);
      AccumulateFraction(next, f[1..]);
      assert Scale(Accumulate(m, s) as real, -|f|) == Scale(Accumulate(next, s[1..]) as real, -|f[1..]|) / 10.0;
    }
  }

  /** The phases reached only after reading a digit. */
  predicate DigitSeen(p: Phase)
  {
    p != Leading && p != Signed && p != Point
  }

  /** A scan that starts before any digit and ends after one read a digit of `s`. */
  lemma {:induction false} RunNeedsDigit(s: string, i: nat, st: Scan)
    requires i <= |s| && !DigitSeen(st.phase)
    requires Run(s, i, st).Some? && DigitSeen(Run(s, i, st).value.phase)
    ensures exists k :: i <= k < |s| && IsDigit(s[k])
    decreases |s| - i
  {
    if i == |s| {
      assert false;
    } else if !IsDigit(s[i]) {
      RunNeedsDigit(s, i + 1, Step(st, s[i]).value);
    }
  }

  /** Text without a digit (blank text, a lone sign or point) is not numeric. */
  lemma NumericNeedsDigit(s: string)
    requires NumericText(s).Some?
    ensures exists k :: 0 <= k < |s| && IsDigit(s[k])
  {
    RunNeedsDigit(s, 0, ScanStart);
  }

  /** Scanning `a + b` from position `i` of `a` goes through `a`, then on into `b`. */
  lemma {:induction false} RunPrefix(a: string, b: string, i: nat, st: Scan)
    requires i <= |a|
    ensures Run(a + b, i, st)
         == match Run(a, i, st) case None => None case Some(mid) => Run(a + b, |a|, mid)
    decreases |a| - i
  {
    if i < |a| {
      assert (a + b)[i] == a[i];
      if Step(st, a[i]).Some? {
        RunPrefix(a, b, i + 1, Step(st, a[i]).value);
      }
    }
  }

  /** Past the end of `a`, scanning `a + b` is scanning `b`. */
  lemma {:induction false} RunSuffix(a: string, b: string, k: nat, st: Scan)
    requires k <= |b|
    ensures Run(a + b, |a| + k, st) == Run(b, k, st)
    decreases |b| - k
  {
    if k < |b| {
      assert (a + b)[|a| + k] == b[k];
      if Step(st, b[k]).Some? {
        RunSuffix(a, b, k + 1, Step(st, b[k]).value);
      }
    }
  }

  /** A scan of `a` that ends in `mid` goes on from `mid` into `b`. */
  lemma RunConcat(a: string, b: string, st: Scan, mid: Scan)
    requires Run(a, 0, st) == Some(mid)
    ensures Run(a + b, 0, st) == Run(b, 0, mid)
  {
    RunPrefix(a, b, 0, st);
    RunSuffix(a, b, 0, mid);
  }

  /** One character scans as one step. */
  lemma RunOne(c: char, st: Scan)
    ensures Run([c], 0, st) == Step(st, c)
  {
    if Step(st, c).Some? {
      assert Run([c], 1, Step(st, c).value) == Some(Step(st, c).value);
    }
  }

  /** A scan of `a` that ends in `mid` takes one more step on a further character. */
  lemma RunThenStep(a: string, c: char, st: Scan, mid: Scan)
    requires Run(a, 0, st) == Some(mid)
    ensures Run(a + [c], 0, st) == Step(mid, c)
  {
    RunConcat(a, [c], st, mid);
    RunOne(c, mid);
  }

  /** Digits read from the start or after a sign make the whole part. */
  lemma {:induction false} RunDigitRun(w: string, st: Scan)
    requires w != [] && AllDigits(w)
    requires st.phase == Leading || st.phase == Signed
    ensures Run(w, 0, st) == Some(st.(phase := Whole, mantissa := Accumulate(0, w)))
    decreases |w|
  {
    var init := w[..|w| - 1];
    var c := w[|w| - 1];
    assert w == init + [c];
    if init == [] {
      RunOne(c, st);
    } else {
      RunDigitRun(init, st);
      RunThenStep(init, c, st, st.(phase := Whole, mantissa := Accumulate(0, init)));
    }
  }

  /** Fraction digits are read onto the mantissa, one place each. */
  lemma {:induction false} RunFractionRun(f: string, st: Scan)
    requires AllDigits(f) && st.phase == Fraction
    ensures Run(f, 0, st) == Some(st.(mantissa := Accumulate(st.mantissa, f), places := st.places + |f|))
    decreases |f|
  {
    if f != [] {
      var init := f[..|f| - 1];
      var c := f[|f| - 1];
      assert f == init + [c];
      RunFractionRun(init, st);
      RunThenStep(init, c, st, st.(mantissa := Accumulate(st.mantissa, init), places := st.places + |init|));
    }
  }

  /** A point and digits after the whole part are the fraction. */
  lemma RunPointed(digits: string, st: Scan)
    requires AllDigits(digits) && st.phase == Whole
    ensures Run("." + digits, 0, st)
         == Some(st.(phase := Fraction, mantissa := Accumulate(st.mantissa, digits), places := st.places + |digits|))
  {
    var fraction := st.(phase := Fraction);
    RunOne('.', st);
    RunConcat(".", digits, st, fraction);
    RunFractionRun(digits, fraction);
  }

  /** A scan holding a printed decimal's sign and digits, and no exponent, has its value. */
  lemma ScanValueOfDecimal(r: Scan, d: Decimal)
    requires r.negative == d.negative && r.exponent == 0 && r.places == |d.fraction|
    requires r.mantissa == Accumulate(Accumulate(0, NatToDecimal(d.whole)), FractionText(d.fraction))
    ensures ScanValue(r) == DecimalValue(d)
  {
    AccumulateDecimal(d.whole);
    AccumulateFraction(d.whole, d.fraction);
  }

  /** The unsigned part of a printed decimal, read from the start or after a
      sign, leaves all its digits in the mantissa and the fraction's length in
      `places`. */
  lemma RunUnsigned(n: nat, f: seq<Digit>, st: Scan)
    requires st.phase == Leading || st.phase == Signed
    requires st.places == 0
    ensures Run(UnsignedText(n, f), 0, st)
         == Some(st.(phase := if f == [] then Whole else Fraction,
                     mantissa := Accumulate(Accumulate(0, NatToDecimal(n)), FractionText(f)), places := |f|))
  {
    var w := NatToDecimal(n);
    var whole := st.(phase := Whole, mantissa := Accumulate(0, w));
    RunDigitRun(w, st);
    if f == [] {
      assert UnsignedText(n, f) == w;
    } else {
      var digits := FractionText(f);
      UnsignedTextPointed(n, f);
      RunConcat(w, "." + digits, st, whole);
      RunPointed(digits, whole);
    }
  }

  /** is_numeric accepts every number as the clients print it, with its value. */
  lemma NumericTextOfDecimal(d: Decimal)
    ensures NumericText(DecimalText(d)) == Some(DecimalValue(d))
  {
    var body := UnsignedText(d.whole, d.fraction);
    var st := ScanStart.(phase := if d.negative then Signed else Leading, negative := d.negative);
    assert Run(DecimalText(d), 0, ScanStart) == Run(body, 0, st) by {
      if d.negative {
        RunOne('-', ScanStart);
        RunConcat("-", body, ScanStart, st);
      } else {
        assert DecimalText(d) == body;
      }
    }
    RunUnsigned(d.whole, d.fraction, st);
    var r := st.(phase := if d.fraction == [] then Whole else Fraction,
                 mantissa := Accumulate(Accumulate(0, NatToDecimal(d.whole)), FractionText(d.fraction)),
                 places := |d.fraction|);
    ScanValueOfDecimal(r, d);
  }

  // ---------------------------------------------------------------------
  // intval

  const PhpIntMax: int := 0x7FFF_FFFF_FFFF_FFFF
  const PhpIntMin: int := -0x8000_0000_0000_0000

  /** The number the longest numeric prefix of `s[i..]` completes, scanning
      on from `st`; `best` is what the text before `i` already read. */
  function PrefixValue(s: string, i: nat, st: Scan, best: Option<real>): Option<real>
    requires i <= |s|
    decreases |s| - i
  {
    var seen := if Complete(st.phase) then Some(ScanValue(st)) else best;
    if i == |s| then seen
    else
      match Step(st, s[i])
      case None => seen
      case Some(next) => PrefixValue(s, i + 1, next, seen)
  }

  /** The number at the start of a string, as PHP reads it when trailing
      characters are allowed: the value of its longest numeric prefix. */
  function LeadingNumber(s: string): Option<real>
  {
    PrefixValue(s, 0, ScanStart, None)
  }

  /** A real rounded toward zero, as a cast from float to int does. */
  function Truncate(x: real): (n: int)
    ensures x >= 0.0 ==> 0 <= n && n as real <= x < n as real + 1.0
    ensures x < 0.0 ==> n <= 0 && n as real - 1.0 < x <= n as real
  {
    if x >= 0.0 then x.Floor else -((-x).Floor)
  }

  /** PHP's intval on a string: the number its longest numeric prefix
      denotes, rounded toward zero and capped to the 64-bit range; 0 when no
      prefix is numeric. */
  function Intval(s: string): (n: int)
    ensures PhpIntMin <= n <= PhpIntMax
    ensures LeadingNumber(s).None? ==> n == 0
  {
    match LeadingNumber(s)
    case None => 0
    case Some(x) =>
      var n := Truncate(x);
      if n > PhpIntMax then PhpIntMax else if n < PhpIntMin then PhpIntMin else n
  }

  /** A scan that reads the rest of `s` and ends complete makes the whole of
      `s` the longest numeric prefix. */
  lemma {:induction false} PrefixValueToEnd(s: string, i: nat, st: Scan, best: Option<real>)
    requires i <= |s| && Run(s, i, st).Some? && Complete(Run(s, i, st).value.phase)
    ensures PrefixValue(s, i, st, best) == Some(ScanValue(Run(s, i, st).value))
    decreases |s| - i
  {
    if i < |s| {
      var seen := if Complete(st.phase) then Some(ScanValue(st)) else best;
      PrefixValueToEnd(s, i + 1, Step(st, s[i]).value, seen);
    }
  }

  /** On a numeric string, intval reads its value, rounded toward zero and capped. */
  lemma IntvalOfNumeric(s: string, x: real)
    requires NumericText(s) == Some(x)
    ensures LeadingNumber(s) == Some(x)
    ensures PhpIntMin as real <= x <= PhpIntMax as real ==> Intval(s) == Truncate(x)
    ensures x >= PhpIntMax as real + 1.0 ==> Intval(s) == PhpIntMax
    ensures x <= PhpIntMin as real - 1.0 ==> Intval(s) == PhpIntMin
  {
    PrefixValueToEnd(s, 0, ScanStart, None);
  }

  /** intval reads back every 64-bit integer as the clients print it. */
  lemma IntvalOfInt(i: int)
    requires PhpIntMin <= i <= PhpIntMax
    ensures Intval(IntToDecimal(i)) == i
  {
    var d := Decimal(i < 0, if i < 0 then -i else i, []);
    assert IntToDecimal(i) == DecimalText(d) by {
      assert UnsignedText(d.whole, []) == NatToDecimal(d.whole);
    }
    NumericTextOfDecimal(d);
    IntvalOfNumeric(IntToDecimal(i), i as real);
  }

  /** A printed natural number beyond the 64-bit range is capped. */
  lemma IntvalCapped(n: nat)
    requires n > PhpIntMax
    ensures Intval(NatToDecimal(n)) == PhpIntMax
  {
    var d := Decimal(false, n, []);
    assert NatToDecimal(n) == DecimalText(d) by {
      assert UnsignedText(n, []) == NatToDecimal(n);
    }
    NumericTextOfDecimal(d);
    IntvalOfNumeric(NatToDecimal(n), n as real);
  }

  /** The exponent counts: "1e2" reads as 100. */
  lemma IntvalReadsExponent()
    ensures Intval("1e2") == 100
  {
  }

  /** Reading stops at the first character that cannot continue a number. */
  lemma IntvalStopsAtLetters()
    ensures Intval(" 12abc") == 12
    ensures Intval("abc") == 0
  {
  }
}
