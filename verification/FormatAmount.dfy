/**
 Token amounts as decimal text: `formatAmount` of indexer/src/formatAmount.js and the scaling in `get24hVolume`
 of indexer/src/db.js.  BigInt `/` and `%` truncate toward zero.
 */
module FormatAmount {
  import opened Decimal
  import opened Division
  import opened Options

  function TruncDiv(a: int, b: nat): int
    requires b > 0
  {
    if a >= 0 then a / b else -((-a) / b)
  }

  function TruncMod(a: int, b: nat): int
    requires b > 0
  {
    if a >= 0 then a % b else -((-a) % b)
  }

  function Format(raw: int, decimals: nat): string {
    var divisor := Pow10(decimals);
    var abs: nat := if raw < 0 then -raw else raw;
    var fracStr := StripZeros(PadStart(Text(abs % divisor), decimals));
    var magnitude := if |fracStr| > 0 then Text(abs / divisor) + "." + fracStr else Text(abs / divisor);
    if raw < 0 then "-" + magnitude else magnitude
  }

  /** The `volume_scaled` of `get24hVolume`. */
  function VolumeScaled(raw: int, decimals: nat): string {
    var divisor := Pow10(decimals);
    Text(TruncDiv(raw, divisor)) + "." + PadStart(Text(TruncMod(raw, divisor)), decimals)
  }

  /* ----- reading decimal text ----- */

  /** The number mantissa / 10^scale. */
  datatype Number = Number(mantissa: int, scale: nat)

  function PointAt(s: string): (i: nat)
    ensures i <= |s|
  {
    if s == "" || s[0] == '.' then 0 else 1 + PointAt(s[1..])
  }

  function ReadUnsigned(s: string): Option<Number> {
    var p := PointAt(s);
    if p >= |s| then
      if s != "" && AllDigits(s) then Some(Number(Value(s), 0)) else None
    else if p > 0 && p + 1 < |s| && AllDigits(s[..p]) && AllDigits(s[p + 1..]) then
      Some(Number(Value(s[..p] + s[p + 1..]), |s| - p - 1))
    else None
  }

  /** Reads `-`? digits (`.` digits)?; anything else is not a number. */
  function Read(s: string): Option<Number> {
    if s != "" && s[0] == '-' then
      match ReadUnsigned(s[1..])
      case Some(n) => Some(Number(-n.mantissa, n.scale))
      case None => None
    else ReadUnsigned(s)
  }

  /** The text denotes raw / 10^decimals. */
  predicate Denotes(s: string, raw: int, decimals: nat) {
    match Read(s)
    case Some(n) => n.mantissa * Pow10(decimals) == raw * Pow10(n.scale)
    case None => false
  }

  /* ----- amounts given as text ----- */

  /** `split(".")[0]` */
  function IntegerPart(s: string): string {
    s[..PointAt(s)]
  }

  /** `BigInt` of digits, with a minus sign before them or not. */
  function ToBigInt(s: string): Option<int> {
    var minus := s != "" && s[0] == '-';
    var digits := if minus then s[1..] else s;
    if digits == "" || !AllDigits(digits) then None
    else
      var n: int := Value(digits);
      Some(if minus then -n else n)
  }

  /** `formatAmount` of a text, as the database gives it. */
  function FormatText(raw: string, decimals: nat): Option<string> {
    match ToBigInt(IntegerPart(raw))
    case Some(n) => Some(Format(n, decimals))
    case None => None
  }

  lemma UnsignedTruncates(s: string)
    requires ReadUnsigned(s).Some?
    ensures var n, whole := ReadUnsigned(s).value, IntegerPart(s);
            && whole != "" && AllDigits(whole) && n.mantissa >= 0 && Value(whole) == n.mantissa / Pow10(n.scale)
  {
    var p := PointAt(s);
    if p >= |s| {
      assert IntegerPart(s) == s;
      Pow10Zero();
    } else {
      var a, b := s[..p], s[p + 1..];
      ValueConcat(a, b);
      ValueBound(b);
      hide Pow10, Value;
      assert |s| - p - 1 == |b|;
      DivUnique(Value(a + b), Pow10(|b|), Value(a), Value(b));
    }
  }

  /** A text with decimals is formatted as the whole number next to it on the side of zero. */
  lemma TextIsTruncated(s: string, decimals: nat)
    requires Read(s).Some?
    ensures var n := Read(s).value;
            FormatText(s, decimals) == Some(Format(TruncDiv(n.mantissa, Pow10(n.scale)), decimals))
  {
    hide Format, Value, Pow10, ReadUnsigned, AllDigits;
    if s != "" && s[0] == '-' {
      UnsignedTruncates(s[1..]);
      assert IntegerPart(s) == "-" + IntegerPart(s[1..]);
    } else {
      UnsignedTruncates(s);
      assert IntegerPart(s)[0] == s[0];
    }
  }

  lemma {:induction false} PointAtFirst(a: string, b: string)
    requires '.' !in a
    ensures PointAt(a) == |a| && PointAt(a + "." + b) == |a|
  {
    if a == "" {
      assert a + "." + b == "." + b;
    } else {
      assert a[0] in a;
      PointAtFirst(a[1..], b);
      assert (a + "." + b)[1..] == a[1..] + "." + b;
    }
  }

  lemma ReadWhole(a: string)
    requires a != "" && AllDigits(a)
    ensures ReadUnsigned(a) == Some(Number(Value(a), 0))
  {
    PointAtFirst(a, "");
  }

  lemma ReadPoint(a: string, b: string)
    requires a != "" && b != "" && AllDigits(a) && AllDigits(b)
    ensures ReadUnsigned(a + "." + b) == Some(Number(Value(a) * Pow10(|b|) + Value(b), |b|))
  {
    hide Pow10, Value;
    var s := a + "." + b;
    PointAtFirst(a, b);
    assert s[..|a|] == a && s[|a| + 1..] == b;
    ValueConcat(a, b);
  }

  /** The digits after the point of the magnitude, and what they are worth. */
  lemma Fraction(frac: nat, decimals: nat)
    requires frac < Pow10(decimals)
    ensures var f := StripZeros(PadStart(Text(frac), decimals));
            && AllDigits(f) && |f| <= decimals && frac == Value(f) * Pow10(decimals - |f|)
            && (f != "" ==> f[|f| - 1] != '0')
  {
    var padded := PadStart(Text(frac), decimals);
    ValueDec(frac);
    PadStartValue(Dec(frac), decimals);
    StripZerosValue(padded);
    if decimals > 0 {
      DecWidth(frac, decimals);
    } else {
      assert Dec(0) == "0" && padded == "0" && padded[..0] == "";
      assert StripZeros("") == "" && StripZeros(padded) == "";
    }
  }

  lemma Rescale(whole: nat, f: nat, places: nat, decimals: nat)
    requires places <= decimals
    ensures (whole * Pow10(places) + f) * Pow10(decimals) ==
            (whole * Pow10(decimals) + f * Pow10(decimals - places)) * Pow10(places)
  {
    hide Pow10;
    Pow10Add(places, decimals - places);
    Distribute(whole, Pow10(places), f, Pow10(decimals - places));
  }

  lemma Distribute(w: int, a: int, f: int, b: int)
    ensures (w * a + f) * (a * b) == (w * (a * b) + f * b) * a
  {
    assert (w * a + f) * (a * b) == (w * a) * (a * b) + f * (a * b);
    assert (w * (a * b) + f * b) * a == (w * (a * b)) * a + (f * b) * a;
    assert (w * a) * (a * b) == (w * (a * b)) * a;
    assert f * (a * b) == (f * b) * a;
  }

  lemma DivMod(n: nat, d: nat)
    requires d > 0
    ensures n == (n / d) * d + n % d && n % d < d
  {
  }

  lemma FormatMagnitude(abs: nat, decimals: nat)
    ensures var s := Format(abs, decimals);
            && s != "" && s[0] != '-'
            && ReadUnsigned(s).Some?
            && var n := ReadUnsigned(s).value;
              && n.mantissa * Pow10(decimals) == abs * Pow10(n.scale)
              && n.scale <= decimals
              && IsDigit(s[|s| - 1])
              && (n.scale > 0 ==> s[|s| - 1] != '0')
  {
    hide Pow10, Value, StripZeros, PadStart, Dec, ReadUnsigned, AllDigits;
    var divisor := Pow10(decimals);
    var whole, frac := abs / divisor, abs % divisor;
    DivMod(abs, divisor);
    Fraction(frac, decimals);
    var f := StripZeros(PadStart(Text(frac), decimals));
    var w := Dec(whole);
    ValueDec(whole);
    Rescale(whole, Value(f), |f|, decimals);
    DigitsAtEnds(w);
    if f == "" {
      ReadWhole(w);
      Pow10Zero();
      assert Value("") == 0 by { EmptyValue(); }
    } else {
      DigitsAtEnds(f);
      ReadPoint(w, f);
      var s := Format(abs, decimals);
      assert s == w + "." + f && s[0] == w[0] && s[|s| - 1] == f[|f| - 1];
    }
  }

  lemma EmptyValue()
    ensures Value("") == 0
  {
  }

  lemma DigitsAtEnds(s: string)
    requires AllDigits(s) && s != ""
    ensures IsDigit(s[0]) && IsDigit(s[|s| - 1])
  {
  }

  lemma FormatSign(raw: int, decimals: nat)
    requires raw < 0
    ensures Format(raw, decimals) == "-" + Format(-raw, decimals)
    ensures Format(raw, decimals)[1..] == Format(-raw, decimals)
  {
  }

  /** Reading the text back and scaling gives the raw amount, for every amount and every number of decimals. */
  lemma FormatReadsBack(raw: int, decimals: nat)
    ensures Denotes(Format(raw, decimals), raw, decimals)
  {
    hide Format, Pow10, ReadUnsigned;
    if raw < 0 {
      FormatMagnitude(-raw, decimals);
      FormatSign(raw, decimals);
      var n := ReadUnsigned(Format(-raw, decimals)).value;
      assert (-n.mantissa) * Pow10(decimals) == -(n.mantissa * Pow10(decimals));
      assert raw * Pow10(n.scale) == -((-raw) * Pow10(n.scale));
    } else {
      FormatMagnitude(raw, decimals);
    }
  }

  /** The text is canonical: no trailing fractional zero, no bare point, at most `decimals` fractional digits. */
  lemma FormatCanonical(raw: int, decimals: nat)
    ensures var s := Format(raw, decimals);
            && Read(s).Some? && Read(s).value.scale <= decimals
            && IsDigit(s[|s| - 1]) && (Read(s).value.scale > 0 ==> s[|s| - 1] != '0')
  {
    hide Format, Pow10, ReadUnsigned;
    var abs: nat := if raw < 0 then -raw else raw;
    FormatMagnitude(abs, decimals);
    var t := Format(abs, decimals);
    if raw < 0 {
      FormatSign(raw, decimals);
      assert Format(raw, decimals)[|t|] == t[|t| - 1];
    }
  }

  lemma CancelRight(a: int, b: int, p: nat)
    requires a * p == b * p && p > 0
    ensures a == b
  {
    assert (a - b) * p == 0;
  }

  /** Different amounts print differently. */
  lemma FormatInjective(a: int, b: int, decimals: nat)
    requires Format(a, decimals) == Format(b, decimals)
    ensures a == b
  {
    hide Format, Pow10, Read;
    FormatReadsBack(a, decimals);
    FormatReadsBack(b, decimals);
    CancelRight(a, b, Pow10(Read(Format(a, decimals)).value.scale));
  }

  /* ----- the padded form ----- */

  lemma VolumeOfNatural(raw: nat, decimals: nat)
    ensures var s := VolumeScaled(raw, decimals);
            && s != "" && s[0] != '-' && ReadUnsigned(s).Some?
            && var n := ReadUnsigned(s).value; n.mantissa * Pow10(decimals) == raw * Pow10(n.scale)
  {
    hide Pow10, Value, PadStart, Dec, ReadUnsigned, AllDigits;
    var divisor := Pow10(decimals);
    var whole, frac := raw / divisor, raw % divisor;
    DivMod(raw, divisor);
    var w, f := Dec(whole), PadStart(Dec(frac), decimals);
    ValueDec(whole);
    ValueDec(frac);
    PadStartValue(Dec(frac), decimals);
    DigitsAtEnds(w);
    assert f != "" by { if decimals > 0 { DecWidth(frac, decimals); } }
    ReadPoint(w, f);
    if decimals > 0 {
      DecWidth(frac, decimals);
      assert |f| == decimals;
    } else {
      Pow10Zero();
      assert frac == 0 && whole == raw;
    }
  }

  lemma SignInside(w: string, f: string)
    requires AllDigits(w) && w != "" && !AllDigits(f)
    ensures Read("-" + w + "." + f) == None && Read(w + "." + f) == None
  {
    PointAtFirst(w, f);
    var s := w + "." + f;
    assert s[|w| + 1..] == f;
    assert ("-" + w + "." + f)[1..] == s;
    assert s[0] == w[0];
  }

  /**
   `get24hVolume` prints the amount it was given exactly when the amount is not negative or is a whole number of
   tokens: a negative remainder puts a minus sign after the point.
   */
  lemma VolumeDenotesIff(raw: int, decimals: nat)
    ensures Denotes(VolumeScaled(raw, decimals), raw, decimals) <==> raw >= 0 || (-raw) % Pow10(decimals) == 0
  {
    hide VolumeScaled, Read, Pow10;
    if raw >= 0 {
      VolumeReads(raw, decimals);
    } else if (-raw) % Pow10(decimals) == 0 {
      VolumeOfWhole(raw, decimals);
    } else {
      VolumeOfFraction(raw, decimals);
    }
  }

  lemma VolumeReads(raw: nat, decimals: nat)
    ensures Denotes(VolumeScaled(raw, decimals), raw, decimals)
  {
    hide VolumeScaled, Pow10, ReadUnsigned;
    VolumeOfNatural(raw, decimals);
  }

  lemma VolumeOfWhole(raw: int, decimals: nat)
    requires raw < 0 && (-raw) % Pow10(decimals) == 0
    ensures Denotes(VolumeScaled(raw, decimals), raw, decimals)
  {
    hide Pow10, ReadUnsigned, PadStart, Dec;
    var abs: nat := -raw;
    var s := VolumeScaled(abs, decimals);
    VolumeOfNatural(abs, decimals);
    DivMod(abs, Pow10(decimals));
    assert abs / Pow10(decimals) > 0;
    assert VolumeScaled(raw, decimals) == "-" + s && ("-" + s)[1..] == s;
    var n := ReadUnsigned(s).value;
    assert (-n.mantissa) * Pow10(decimals) == -(n.mantissa * Pow10(decimals));
    assert raw * Pow10(n.scale) == -(abs * Pow10(n.scale));
  }

  lemma MinusInside(frac: nat, decimals: nat)
    requires frac > 0
    ensures !AllDigits(PadStart(Text(-(frac as int)), decimals))
  {
    hide Dec, Zeros;
    var t := Text(-(frac as int));
    var padded := PadStart(t, decimals);
    assert t[0] == '-' && padded[|padded| - |t|] == '-';
  }

  lemma VolumeOfFraction(raw: int, decimals: nat)
    requires raw < 0 && (-raw) % Pow10(decimals) != 0
    ensures Read(VolumeScaled(raw, decimals)) == None
  {
    hide Pow10, Read, Dec, PadStart, AllDigits;
    var whole, frac := (-raw) / Pow10(decimals), (-raw) % Pow10(decimals);
    MinusInside(frac, decimals);
    var padded := PadStart(Text(-frac), decimals);
    SignInside(Dec(whole), padded);
    assert Text(-whole) == if whole > 0 then "-" + Dec(whole) else Dec(whole);
    assert VolumeScaled(raw, decimals) == Text(-whole) + "." + padded;
  }

  /** On amounts that are not negative the two printers denote the same number. */
  lemma PrintersAgree(raw: nat, decimals: nat)
    ensures var a, b := Read(Format(raw, decimals)), Read(VolumeScaled(raw, decimals));
            a.Some? && b.Some? && a.value.mantissa * Pow10(b.value.scale) == b.value.mantissa * Pow10(a.value.scale)
  {
    hide Format, VolumeScaled, Read, Pow10;
    FormatReadsBack(raw, decimals);
    VolumeReads(raw, decimals);
    var a, b := Read(Format(raw, decimals)).value, Read(VolumeScaled(raw, decimals)).value;
    CrossMultiply(a.mantissa, Pow10(a.scale), b.mantissa, Pow10(b.scale), raw, Pow10(decimals));
  }

  lemma CrossMultiply(m: int, p: nat, n: int, q: nat, raw: int, d: nat)
    requires m * d == raw * p && n * d == raw * q && d > 0
    ensures m * q == n * p
  {
    assert (m * q) * d == (m * d) * q;
    assert (n * p) * d == (n * d) * p;
    assert (raw * p) * q == (raw * q) * p;
    CancelRight(m * q, n * p, d);
  }
}
