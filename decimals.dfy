/** System.Decimal values, their invariant-culture text form, and the number parser of
    .NET (decimal.TryParse / int.TryParse / int.Parse) restricted to the NumberStyles
    the core passes: Integer, AllowLeadingSign | AllowDecimalPoint, and Number. */
module Decimals {
  import opened Wrappers
  import opened Text

  /** A decimal is mantissa / 10^scale. The scale is part of the value as .NET keeps it:
      "10.750" parses to Decimal(10750, 3) and prints back as "10.750". */
  datatype Decimal = Decimal(mantissa: int, scale: nat)

  function Abs(x: int): nat {
    if x < 0 then -x else x
  }

  /** decimal.ToString(CultureInfo.InvariantCulture): an optional '-', then the digits of
      the mantissa's magnitude, written with at least scale + 1 digits, with '.' inserted
      before the last `scale` of them when the scale is positive. */
  function Format(d: Decimal): (s: string)
    ensures |s| >= 1
  {
    SplitCanonical(d.mantissa < 0, ZeroPadded(Abs(d.mantissa), d.scale + 1), d.scale)
  }

  /** The canonical text of a digit string with a point before its last k digits. */
  function SplitCanonical(negative: bool, t: string, k: nat): (s: string)
    requires k < |t|
    ensures |s| >= 1
  {
    Canonical(negative, t[..|t| - k], t[|t| - k..])
  }

  /** The text [-]digits[.digits] of a sign and two digit strings. */
  function Canonical(negative: bool, ip: string, fp: string): (s: string)
    ensures |s| >= |ip|
  {
    SignText(negative) + (ip + FractionText(fp))
  }

  function SignText(negative: bool): string {
    if negative then "-" else ""
  }

  /** A point followed by the fraction digits, or nothing when there are none. */
  function FractionText(fp: string): string {
    if fp == [] then "" else "." + fp
  }

  /** The characters the invariant format can produce. */
  predicate IsFormatChar(c: char) {
    IsDigit(c) || c == '.' || c == '-'
  }

  /** The invariant text has no group separator, no white space and no exponent. */
  lemma FormatChars(d: Decimal)
    ensures forall i | 0 <= i < |Format(d)| :: IsFormatChar(Format(d)[i])
  {
    var ip, fp := FormatParts(d);
    CanonicalChars(d.mantissa < 0, ip, fp);
  }

  /** No character of a decimal's invariant text is white space. */
  lemma FormatCharNotWhite(c: char)
    requires IsFormatChar(c)
    ensures !IsWhiteSpace(c)
  {
  }

  lemma CanonicalChars(negative: bool, ip: string, fp: string)
    requires AllDigits(ip) && AllDigits(fp)
    ensures forall i | 0 <= i < |Canonical(negative, ip, fp)| :: IsFormatChar(Canonical(negative, ip, fp)[i])
  {
    var f := FractionText(fp);
    assert forall i | 0 <= i < |f| :: IsFormatChar(f[i]) by {
      if fp != [] {
        assert forall i | 1 <= i < |f| :: f[i] == fp[i - 1];
      }
    }
    var u := ip + f;
    assert forall i | 0 <= i < |u| :: IsFormatChar(u[i]) by {
      assert forall i | |ip| <= i < |u| :: u[i] == f[i - |ip|];
    }
    var g := SignText(negative);
    var s := g + u;
    assert forall i | |g| <= i < |s| :: s[i] == u[i - |g|];
  }

  // ---------------------------------------------------------------- NumberStyles

  /** The NumberStyles flags that matter here; AllowLeadingSign is always on. */
  datatype NumberStyle = NumberStyle(
    allowWhite: bool,          // AllowLeadingWhite | AllowTrailingWhite
    allowTrailingSign: bool,   // AllowTrailingSign
    allowThousands: bool,      // AllowThousands (',' in the invariant culture)
    allowDecimalPoint: bool)   // AllowDecimalPoint ('.' in the invariant culture)

  /** NumberStyles.Integer, the default of int.Parse and int.TryParse. */
  const IntegerStyle := NumberStyle(true, false, false, false)
  /** NumberStyles.AllowDecimalPoint | NumberStyles.AllowLeadingSign. */
  const PointAndSignStyle := NumberStyle(false, false, false, true)
  /** NumberStyles.Number. */
  const NumberStyleNumber := NumberStyle(true, true, true, true)

  predicate IsSign(c: char) {
    c == '+' || c == '-'
  }

  /** The characters of an integer part: digits, and group separators when allowed. */
  predicate IsIntPartChar(c: char, thousands: bool) {
    IsDigit(c) || (thousands && c == ',')
  }

  /** The end of the run of NumberStyles white space starting at i. */
  function SkipWhite(s: string, i: nat): (j: nat)
    requires i <= |s|
    ensures i <= j <= |s|
    ensures forall k | i <= k < j :: IsNumberWhite(s[k])
    ensures j == |s| || !IsNumberWhite(s[j])
    decreases |s| - i
  {
    if i < |s| && IsNumberWhite(s[i]) then SkipWhite(s, i + 1) else i
  }

  /** The end of the run of integer-part characters starting at i. */
  function SkipIntPart(s: string, i: nat, thousands: bool): (j: nat)
    requires i <= |s|
    ensures i <= j <= |s|
    ensures forall k | i <= k < j :: IsIntPartChar(s[k], thousands)
    ensures j == |s| || !IsIntPartChar(s[j], thousands)
    decreases |s| - i
  {
    if i < |s| && IsIntPartChar(s[i], thousands) then SkipIntPart(s, i + 1, thousands) else i
  }

  /** The end of the run of digits starting at i. */
  function SkipDigits(s: string, i: nat): (j: nat)
    requires i <= |s|
    ensures i <= j <= |s|
    ensures forall k | i <= k < j :: IsDigit(s[k])
    ensures j == |s| || !IsDigit(s[j])
    decreases |s| - i
  {
    if i < |s| && IsDigit(s[i]) then SkipDigits(s, i + 1) else i
  }

  /** The digits of an integer part with its group separators removed. */
  function DropCommas(s: string): (r: string)
    ensures |r| <= |s|
    ensures (forall i | 0 <= i < |s| :: s[i] != ',') ==> r == s
  {
    if s == [] then [] else (if s[0] == ',' then [] else [s[0]]) + DropCommas(s[1..])
  }

  /** What may follow the last digit: white space (if allowed), at most one sign (if a
      trailing sign is allowed and no leading sign was seen), and then only NUL characters,
      which .NET tolerates at the end of the input. Gives the trailing sign, if any. */
  function ScanTrailing(t: string, style: NumberStyle, signFree: bool): Option<Option<char>>
  {
    if t == [] then Some(None)
    else if style.allowWhite && IsNumberWhite(t[0]) then ScanTrailing(t[1..], style, signFree)
    else if signFree && style.allowTrailingSign && IsSign(t[0]) then
      (if ScanTrailing(t[1..], style, false).Some? then Some(Some(t[0])) else None)
    else if forall k | 0 <= k < |t| :: t[k] == '\0' then Some(None)
    else None
  }

  /** The parts of a successfully scanned number. */
  datatype Scan = Scan(negative: bool, intDigits: string, fracDigits: string)

  /** Where the scanner's stages end: leading white space up to a, an optional leading
      sign, the integer part from b to c, an optional point and fraction up to d. */
  datatype Layout = Layout(a: nat, leadSign: bool, b: nat, c: nat, hasPoint: bool, d: nat)

  function LayoutOf(s: string, style: NumberStyle): (l: Layout)
    ensures l.a <= l.b <= l.c <= l.d <= |s|
    ensures l.leadSign ==> l.a < |s| && IsSign(s[l.a])
    ensures l.hasPoint ==> l.c < l.d
    ensures forall k | l.b <= k < l.c :: IsIntPartChar(s[k], style.allowThousands)
    ensures forall k | l.c + 1 <= k < l.d :: IsDigit(s[k])
    ensures !style.allowDecimalPoint ==> !l.hasPoint
  {
    var a := if style.allowWhite then SkipWhite(s, 0) else 0;
    var leadSign := a < |s| && IsSign(s[a]);
    var b := if leadSign then a + 1 else a;
    var c := IntPartEnd(s, b, style.allowThousands);
    var hasPoint := style.allowDecimalPoint && c < |s| && s[c] == '.';
    var d := if hasPoint then SkipDigits(s, c + 1) else c;
    Layout(a, leadSign, b, c, hasPoint, d)
  }

  /** The end of an integer part starting at b: it must start with a digit. */
  function IntPartEnd(s: string, b: nat, thousands: bool): (c: nat)
    requires b <= |s|
    ensures b <= c <= |s|
    ensures forall k | b <= k < c :: IsIntPartChar(s[k], thousands)
  {
    if b < |s| && IsDigit(s[b]) then SkipIntPart(s, b + 1, thousands) else b
  }

  /** .NET's number scanner for the given style, invariant culture:
      [ws] [sign] digits-with-groups [. digits] [ws and trailing sign] [NULs],
      with at least one digit before or after the point, and at most one sign. */
  function ScanNumber(s: string, style: NumberStyle): (r: Option<Scan>)
    ensures r.Some? ==> AllDigits(r.value.intDigits) && AllDigits(r.value.fracDigits)
    ensures r.Some? ==> |r.value.intDigits| + |r.value.fracDigits| >= 1
    ensures r.Some? && !style.allowDecimalPoint ==> r.value.fracDigits == []
    ensures r.Some? ==> |r.value.intDigits| + |r.value.fracDigits| <= |s|
  {
    var l := LayoutOf(s, style);
    var intDigits := DropCommas(s[l.b..l.c]);
    var fracDigits := if l.hasPoint then s[l.c + 1..l.d] else "";
    assert AllDigits(intDigits) by { IntPartDigits(s, l.b, l.c, style.allowThousands); }
    if |intDigits| + |fracDigits| == 0 then None
    else match ScanTrailing(s[l.d..], style, !l.leadSign)
      case None => None
      case Some(trailing) =>
        var negative := (l.leadSign && s[l.a] == '-') || trailing == Some('-');
        Some(Scan(negative, intDigits, fracDigits))
  }

  lemma IntPartDigits(s: string, b: nat, c: nat, thousands: bool)
    requires b <= c <= |s|
    requires forall k | b <= k < c :: IsIntPartChar(s[k], thousands)
    ensures AllDigits(DropCommas(s[b..c]))
  {
    DropCommasDigits(s[b..c], thousands);
  }

  lemma DropCommasDigits(t: string, thousands: bool)
    requires forall i | 0 <= i < |t| :: IsIntPartChar(t[i], thousands)
    ensures AllDigits(DropCommas(t))
  {
  }

  function Signed(negative: bool, m: int): int {
    if negative then -m else m
  }

  /** The decimal a scan denotes: all digits as the mantissa, the fraction length as scale. */
  function ScanValue(sc: Scan): Decimal
    requires AllDigits(sc.intDigits) && AllDigits(sc.fracDigits)
  {
    ValueOfConcat(sc.intDigits, sc.fracDigits);
    Decimal(Signed(sc.negative, ValueOf(sc.intDigits + sc.fracDigits)), |sc.fracDigits|)
  }

  /** decimal.TryParse(s, style, CultureInfo.InvariantCulture). The 96-bit range and
      28-digit precision of System.Decimal are not modelled. */
  function ParseDecimal(s: string, style: NumberStyle): (r: Option<Decimal>)
  {
    match ScanNumber(s, style)
    case None => None
    case Some(sc) => Some(ScanValue(sc))
  }

  const Int32Min: int := -0x8000_0000
  const Int32Max: int := 0x7FFF_FFFF

  /** int.Parse(s, NumberStyles.Integer, InvariantCulture): FormatException when the text
      is not an integer, OverflowException when it is out of the Int32 range.
      int.TryParse succeeds exactly when this is Ok. */
  function ParseInt32(s: string): (r: Result<int, Exn>)
    ensures r.Ok? ==> Int32Min <= r.value <= Int32Max
    ensures r.Err? ==> r.error == Exn.Format || r.error == Overflow
  {
    match ParseDecimal(s, IntegerStyle)
    case None => Err(Exn.Format)
    case Some(d) => if Int32Min <= d.mantissa <= Int32Max then Ok(d.mantissa) else Err(Overflow)
  }

  // ---------------------------------------------------------------- properties

  /** int.Parse of at most nine characters never overflows. */
  lemma ShortInt32NoOverflow(s: string)
    requires |s| <= 9
    ensures ParseInt32(s) != Err(Overflow)
  {
    match ParseDecimal(s, IntegerStyle)
    case None =>
    case Some(d) =>
      var sc := ScanNumber(s, IntegerStyle).value;
      ValueOfConcat(sc.intDigits, sc.fracDigits);
      ValueBelowPow10(sc.intDigits + sc.fracDigits);
      Pow10Monotone(|sc.intDigits + sc.fracDigits|, 9);
      assert Pow10(9) == 1000000000;
  }

  /** Printing a decimal and parsing it back, in any style that allows a decimal point,
      gives the same mantissa and scale. */
  lemma ParseFormat(d: Decimal, style: NumberStyle)
    requires style.allowDecimalPoint
    ensures ParseDecimal(Format(d), style) == Some(d)
  {
    var ip, fp := FormatParts(d);
    ParseCanonical(d.mantissa < 0, ip, fp, style);
  }

  /** The invariant text is the canonical text of the mantissa's digits split at the scale. */
  lemma FormatParts(d: Decimal) returns (ip: string, fp: string)
    ensures AllDigits(ip) && |ip| >= 1 && AllDigits(fp) && |fp| == d.scale
    ensures Format(d) == Canonical(d.mantissa < 0, ip, fp)
    ensures AllDigits(ip + fp) && Signed(d.mantissa < 0, ValueOf(ip + fp)) == d.mantissa
  {
    var t := ZeroPadded(Abs(d.mantissa), d.scale + 1);
    ip, fp := SplitDigits(t, d.scale, d.mantissa);
    assert Format(d) == SplitCanonical(d.mantissa < 0, t, d.scale);
  }

  /** A digit string of the magnitude of m, split before its last k digits. */
  lemma SplitDigits(t: string, k: nat, m: int) returns (ip: string, fp: string)
    requires AllDigits(t) && k < |t| && ValueOf(t) == Abs(m)
    ensures ip == t[..|t| - k] && fp == t[|t| - k..]
    ensures AllDigits(ip) && |ip| >= 1 && AllDigits(fp) && |fp| == k
    ensures AllDigits(ip + fp) && Signed(m < 0, ValueOf(ip + fp)) == m
    ensures SplitCanonical(m < 0, t, k) == Canonical(m < 0, ip, fp)
  {
    ip, fp := t[..|t| - k], t[|t| - k..];
    assert ip + fp == t;
  }

  lemma ParseCanonical(negative: bool, ip: string, fp: string, style: NumberStyle)
    requires AllDigits(ip) && |ip| >= 1 && AllDigits(fp)
    requires fp != [] ==> style.allowDecimalPoint
    ensures AllDigits(ip + fp)
    ensures ParseDecimal(Canonical(negative, ip, fp), style)
      == Some(Decimal(Signed(negative, ValueOf(ip + fp)), |fp|))
  {
    ValueOfConcat(ip, fp);
    ScanCanonical(negative, ip, fp, style);
    var s := Canonical(negative, ip, fp);
    assert ScanNumber(s, style) == Some(Scan(negative, ip, fp));
    assert ScanValue(Scan(negative, ip, fp)) == Decimal(Signed(negative, ValueOf(ip + fp)), |fp|);
  }

  lemma ScanCanonical(negative: bool, ip: string, fp: string, style: NumberStyle)
    requires AllDigits(ip) && |ip| >= 1 && AllDigits(fp)
    requires fp != [] ==> style.allowDecimalPoint
    ensures ScanNumber(Canonical(negative, ip, fp), style) == Some(Scan(negative, ip, fp))
  {
    CanonicalLayout(negative, ip, fp, style);
    CanonicalSlices(negative, ip, fp);
    ScanOfLayout(Canonical(negative, ip, fp), style, negative, ip, fp);
  }

  /** The sign, the integer digits and the fraction digits of a canonical text. */
  lemma CanonicalSlices(negative: bool, ip: string, fp: string)
    ensures var s, b := Canonical(negative, ip, fp), if negative then 1 else 0;
      && b + |ip| <= |s|
      && (negative ==> s[0] == '-')
      && s[b..b + |ip|] == ip
      && (fp != [] ==> b + |ip| < |s| && s[b + |ip| + 1..] == fp)
  {
  }

  /** The scan of a text whose layout is a sign, ip and an optional point and fp. */
  lemma ScanOfLayout(s: string, style: NumberStyle, negative: bool, ip: string, fp: string)
    requires AllDigits(ip) && |ip| >= 1
    requires var b := if negative then 1 else 0;
      && b + |ip| <= |s|
      && LayoutOf(s, style) == Layout(0, negative, b, b + |ip|, fp != [], |s|)
      && (negative ==> s[0] == '-')
      && s[b..b + |ip|] == ip
      && (fp != [] ==> b + |ip| < |s| && s[b + |ip| + 1..] == fp)
    ensures ScanNumber(s, style) == Some(Scan(negative, ip, fp))
  {
    var b := if negative then 1 else 0;
    var c := b + |ip|;
    var l := LayoutOf(s, style);
    DropCommasIdentity(ip);
    assert DropCommas(s[l.b..l.c]) == ip;
    assert (if l.hasPoint then s[l.c + 1..l.d] else "") == fp;
    assert s[l.d..] == [];
    assert ScanTrailing(s[l.d..], style, !l.leadSign) == Some(None);
    assert (l.leadSign && s[l.a] == '-') <==> negative;
  }

  lemma CanonicalLayout(negative: bool, ip: string, fp: string, style: NumberStyle)
    requires AllDigits(ip) && |ip| >= 1 && AllDigits(fp)
    requires fp != [] ==> style.allowDecimalPoint
    ensures var b := if negative then 1 else 0;
      LayoutOf(Canonical(negative, ip, fp), style)
      == Layout(0, negative, b, b + |ip|, fp != [], |Canonical(negative, ip, fp)|)
  {
    CanonicalShape(negative, ip, fp);
    var b := if negative then 1 else 0;
    LayoutOfShape(Canonical(negative, ip, fp), style, negative, b + |ip|, fp != []);
  }

  /** Where the sign, the digits and the point sit in a canonical text. */
  lemma CanonicalShape(negative: bool, ip: string, fp: string)
    requires AllDigits(ip) && |ip| >= 1 && AllDigits(fp)
    ensures var s, b := Canonical(negative, ip, fp), if negative then 1 else 0;
      && b + |ip| <= |s|
      && (negative ==> s[0] == '-')
      && (forall k | b <= k < b + |ip| :: IsDigit(s[k]))
      && (fp == [] ==> |s| == b + |ip|)
      && (fp != [] ==> b + |ip| < |s| && s[b + |ip|] == '.')
      && (forall k | b + |ip| + 1 <= k < |s| :: IsDigit(s[k]))
  {
    var s, b := Canonical(negative, ip, fp), if negative then 1 else 0;
    var c := b + |ip|;
    var sign, frac := SignText(negative), FractionText(fp);
    assert |sign| == b && s == sign + (ip + frac);
    assert forall k | b <= k < c :: s[k] == ip[k - b];
    if fp != [] {
      assert frac == ['.'] + fp;
      assert s == (sign + ip) + (['.'] + fp);
      assert s[c] == '.';
      assert forall k | c + 1 <= k < |s| :: s[k] == fp[k - c - 1];
    } else {
      assert |s| == c;
    }
  }

  /** The scanner's stages on a text made of an optional '-', digits up to c, and an
      optional point followed by digits up to the end. */
  lemma LayoutOfShape(s: string, style: NumberStyle, negative: bool, c: nat, hasPoint: bool)
    requires var b := if negative then 1 else 0;
      && b < c <= |s|
      && (negative ==> s[0] == '-')
      && (forall k | b <= k < c :: IsDigit(s[k]))
      && (!hasPoint ==> c == |s|)
      && (hasPoint ==> style.allowDecimalPoint && c < |s| && s[c] == '.')
      && (forall k | c + 1 <= k < |s| :: IsDigit(s[k]))
    ensures LayoutOf(s, style) == Layout(0, negative, if negative then 1 else 0, c, hasPoint, |s|)
  {
    var b := if negative then 1 else 0;
    assert IsDigit(s[b]);
    assert !IsNumberWhite(s[0]);
    assert style.allowWhite ==> SkipWhite(s, 0) == 0;
    IntPartRun(s, b + 1, c, style.allowThousands);
    if hasPoint {
      DigitRun(s, c + 1);
    }
  }

  lemma DropCommasIdentity(t: string)
    requires AllDigits(t)
    ensures DropCommas(t) == t
  {
  }

  /** A run of digits ending at j (at the end or before a point) is skipped up to j. */
  lemma IntPartRun(s: string, i: nat, j: nat, thousands: bool)
    requires i <= j <= |s|
    requires forall k | i <= k < j :: IsDigit(s[k])
    requires j == |s| || s[j] == '.'
    ensures SkipIntPart(s, i, thousands) == j
    decreases j - i
  {
    if i < j {
      IntPartRun(s, i + 1, j, thousands);
    }
  }

  /** A string ending in digits is skipped to its end. */
  lemma DigitRun(s: string, i: nat)
    requires i <= |s|
    requires forall k | i <= k < |s| :: IsDigit(s[k])
    ensures SkipDigits(s, i) == |s|
    decreases |s| - i
  {
    if i < |s| {
      DigitRun(s, i + 1);
    }
  }

  /** With AllowLeadingSign | AllowDecimalPoint only digits, one point and one leading
      sign can be accepted: no white space, no group separator, no exponent. */
  lemma PointAndSignAccepts(s: string)
    requires ParseDecimal(s, PointAndSignStyle).Some?
    ensures forall i | 0 <= i < |s| :: IsDigit(s[i]) || s[i] == '.' || IsSign(s[i]) || s[i] == '\0'
  {
  }

  /** NumberStyles.Number reads group separators in the integer part: "1,000.5" is 1000.5. */
  lemma NumberStyleReadsGroups()
    ensures ParseDecimal("1,000.5", NumberStyleNumber) == Some(Decimal(10005, 1))
  {
    GroupedScan();
    assert "1000" + "5" == "10005";
    DigitsOfTenThousandFive();
  }

  lemma DigitsOfTenThousandFive()
    ensures AllDigits("10005") && ValueOf("10005") == 10005
  {
    assert ValueOf("1") == 1 by { assert "1"[..0] == ""; }
    assert ValueOf("10") == 10 by { assert "10"[..1] == "1"; }
    assert ValueOf("100") == 100 by { assert "100"[..2] == "10"; }
    assert ValueOf("1000") == 1000 by { assert "1000"[..3] == "100"; }
    assert "10005"[..4] == "1000";
  }

  lemma GroupedScan()
    ensures ScanNumber("1,000.5", NumberStyleNumber) == Some(Scan(false, "1000", "5"))
  {
    var s := "1,000.5";
    assert LayoutOf(s, NumberStyleNumber) == Layout(0, false, 0, 5, true, 7) by {
      assert SkipWhite(s, 0) == 0;
      assert SkipIntPart(s, 1, true) == 5;
      assert SkipDigits(s, 6) == 7;
    }
    assert DropCommas(s[0..5]) == "1000";
    assert s[6..7] == "5";
  }

  /** The point-and-sign style refuses group separators; neither style reads an exponent. */
  lemma GroupsAndExponentRefused()
    ensures ParseDecimal("1,000.5", PointAndSignStyle) == None
    ensures ParseDecimal("1e5", NumberStyleNumber) == None
  {
    GroupsRefused();
    ExponentRefused();
  }

  lemma GroupsRefused()
    ensures ParseDecimal("1,000.5", PointAndSignStyle) == None
  {
    assert SkipIntPart("1,000.5", 1, false) == 1;
  }

  lemma ExponentRefused()
    ensures ParseDecimal("1e5", NumberStyleNumber) == None
  {
    assert SkipWhite("1e5", 0) == 0;
    assert SkipIntPart("1e5", 1, true) == 1;
  }
}
