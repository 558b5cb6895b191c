/** Shared vocabulary: an Option type, decimal rendering and parsing of
    numbers the way the Python runtime does it for the texts this program
    handles, and a few string predicates. */
module Common {

  datatype Option<+T> = None | Some(value: T)

  // ---------------------------------------------------------------------
  // Digits
  // ---------------------------------------------------------------------

  predicate IsDigit(c: char) { '0' <= c <= '9' }

  predicate AllDigits(s: string) { forall i :: 0 <= i < |s| ==> IsDigit(s[i]) }

  function DigitValue(c: char): nat
    requires IsDigit(c)
  {
    (c as int) - ('0' as int)
  }

  function DigitChar(d: nat): (c: char)
    requires d < 10
    ensures IsDigit(c) && DigitValue(c) == d
  {
    (('0' as int) + d) as char
  }

  /** Value of a string of decimal digits, most significant first. */
  function DigitsValue(s: string): nat
    requires AllDigits(s)
  {
    if |s| == 0 then 0 else DigitsValue(s[..|s| - 1]) * 10 + DigitValue(s[|s| - 1])
  }

  function Pow10(n: nat): (r: nat)
    ensures r >= 1
  {
    if n == 0 then 1 else 10 * Pow10(n - 1)
  }

  // ---------------------------------------------------------------------
  // Rendering numbers (Python's str() on int)
  // ---------------------------------------------------------------------

  function NatToString(n: nat): (s: string)
    ensures |s| >= 1 && AllDigits(s)
  {
    if n < 10 then [DigitChar(n)] else NatToString(n / 10) + [DigitChar(n % 10)]
  }

  function IntToString(i: int): string
  {
    if i < 0 then "-" + NatToString(-i) else NatToString(i)
  }

  /** Reading back a rendered natural number gives the number. */
  lemma {:induction false} DigitsOfNatToString(n: nat)
    ensures DigitsValue(NatToString(n)) == n
    decreases n
  {
    if n >= 10 {
      var p := NatToString(n / 10);
      var s := p + [DigitChar(n % 10)];
      assert s[..|s| - 1] == p;
      DigitsOfNatToString(n / 10);
    }
  }

  /** Distinct numbers render to distinct strings. */
  lemma NatToStringInjective(a: nat, b: nat)
    requires NatToString(a) == NatToString(b)
    ensures a == b
  {
    DigitsOfNatToString(a);
    DigitsOfNatToString(b);
  }

  // ---------------------------------------------------------------------
  // Parsing numbers (Python's int() and float() on the texts of an entry)
  // ---------------------------------------------------------------------

  /** Python's int(text) for an optional sign followed by ASCII digits;
      None stands for the ValueError Python raises. */
  function ParseInt(s: string): (r: Option<int>)
    ensures r.Some? ==> |s| >= 1 && forall i :: 1 <= i < |s| ==> IsDigit(s[i])
    ensures |s| >= 1 && AllDigits(s) ==> r == Some(DigitsValue(s))
    ensures |s| >= 2 && s[0] == '-' && AllDigits(s[1..]) ==> r == Some(-(DigitsValue(s[1..]) as int))
    ensures r.Some? && |s| >= 1 && !IsDigit(s[0]) ==> s[0] == '-' || s[0] == '+'
  {
    if |s| >= 2 && (s[0] == '-' || s[0] == '+') && AllDigits(s[1..]) then
      var v: int := DigitsValue(s[1..]);
      Some(if s[0] == '-' then -v else v)
    else if |s| >= 1 && AllDigits(s) then
      Some(DigitsValue(s))
    else
      None
  }

  /** int(str(i)) == i */
  lemma ParseIntOfIntToString(i: int)
    ensures ParseInt(IntToString(i)) == Some(i)
  {
    if i < 0 {
      ParseIntOfNegative(-i);
    } else {
      ParseIntOfNatural(i);
    }
  }

  lemma ParseIntOfNegative(n: nat)
    requires n > 0
    ensures ParseInt("-" + NatToString(n)) == Some(-(n as int))
  {
    var d := NatToString(n);
    var s := "-" + d;
    assert s[0] == '-' && s[1..] == d;
    DigitsOfNatToString(n);
  }

  lemma ParseIntOfNatural(n: nat)
    ensures ParseInt(NatToString(n)) == Some(n)
  {
    var s := NatToString(n);
    DigitsOfNatToString(n);
    assert IsDigit(s[0]);
  }

  /** Position of the first '.' in s, or |s| when there is none. */
  function DotIndex(s: string): (k: nat)
    ensures k <= |s|
    ensures k < |s| ==> s[k] == '.'
    ensures forall j :: 0 <= j < k ==> s[j] != '.'
  {
    if |s| == 0 then 0 else if s[0] == '.' then 0 else 1 + DotIndex(s[1..])
  }

  /** The number whose integer part is `whole` and whose `places`
      fractional digits spell `frac`. */
  function Fraction(whole: nat, frac: nat, places: nat): (v: real)
    ensures v >= 0.0
  {
    whole as real + (frac as real) / (Pow10(places) as real)
  }

  /** Value of the decimal numeral `whole.frac`. */
  function DecimalValue(whole: string, frac: string): real
    requires AllDigits(whole) && AllDigits(frac)
  {
    Fraction(DigitsValue(whole), DigitsValue(frac), |frac|)
  }

  /** An unsigned numeral float() accepts: digits and at most one point,
      with at least one digit ("5", "0.5", ".5", "5."). */
  predicate DecimalNumeral(s: string)
  {
    && (forall i :: 0 <= i < |s| ==> IsDigit(s[i]) || s[i] == '.')
    && (forall i, j :: 0 <= i < j < |s| && s[i] == '.' ==> s[j] != '.')
    && (exists i :: 0 <= i < |s| && IsDigit(s[i]))
  }

  /** Value of "digits[.digits]" with at least one digit in all. */
  function UnsignedDecimal(s: string): (r: Option<real>)
    ensures r.Some? ==> r.value >= 0.0
  {
    var k := DotIndex(s);
    var whole := s[..k];
    var frac := if k < |s| then s[k + 1..] else "";
    if |whole| + |frac| >= 1 && AllDigits(whole) && AllDigits(frac) then
      Some(DecimalValue(whole, frac))
    else
      None
  }

  /** The split at the first point reads a numeral exactly when both sides
      are digits and there is a digit in all. */
  lemma UnsignedDecimalSplit(s: string)
    ensures var k := DotIndex(s);
            var whole := s[..k];
            var frac := if k < |s| then s[k + 1..] else "";
            DecimalNumeral(s) <==> |whole| + |frac| >= 1 && AllDigits(whole) && AllDigits(frac)
  {
    var k := DotIndex(s);
    var whole := s[..k];
    var frac := if k < |s| then s[k + 1..] else "";
    assert forall i :: 0 <= i < k ==> s[i] == whole[i];
    assert forall i :: k < i < |s| ==> s[i] == frac[i - k - 1];
    if DecimalNumeral(s) {
      var d :| 0 <= d < |s| && IsDigit(s[d]);
      assert d != k;
      forall i | 0 <= i < |frac|
        ensures IsDigit(frac[i])
      {
        assert s[k + 1 + i] == frac[i];
      }
    }
    if |whole| + |frac| >= 1 && AllDigits(whole) && AllDigits(frac) {
      if |whole| >= 1 {
        assert IsDigit(s[0]);
      } else {
        assert IsDigit(s[k + 1]);
      }
    }
  }

  /** An unsigned text reads exactly when it is a numeral. */
  lemma UnsignedDecimalAccepts(s: string)
    ensures UnsignedDecimal(s).Some? <==> DecimalNumeral(s)
  {
    UnsignedDecimalSplit(s);
  }

  /** Python's float(text) for an optional sign, digits and an optional
      fraction; None stands for the ValueError Python raises. */
  function ParseDecimal(s: string): (r: Option<real>)
    ensures r.Some? ==> |s| >= 1
    ensures r.Some? && s[0] == '-' ==> r.value <= 0.0
    ensures r.Some? && s[0] != '-' ==> r.value >= 0.0
    ensures |s| >= 1 && AllDigits(s) ==> r == Some(DigitsValue(s) as real)
  {
    if |s| >= 1 && (s[0] == '-' || s[0] == '+') then
      match UnsignedDecimal(s[1..])
      case Some(v) => Some(if s[0] == '-' then -v else v)
      case None => None
    else if |s| >= 1 && AllDigits(s) then
      UnsignedDecimalOfDigits(s);
      UnsignedDecimal(s)
    else
      UnsignedDecimal(s)
  }

  /** An unsigned numeral with a point reads as whole.frac. */
  lemma UnsignedDecimalOfParts(whole: string, frac: string)
    requires AllDigits(whole) && AllDigits(frac) && |whole| + |frac| >= 1
    ensures UnsignedDecimal(whole + "." + frac) == Some(DecimalValue(whole, frac))
  {
    var u := whole + "." + frac;
    var k := DotIndex(u);
    assert u[|whole|] == '.';
    assert forall j :: 0 <= j < |whole| ==> u[j] == whole[j];
    assert k == |whole|;
    assert u[..k] == whole;
    assert u[k + 1..] == frac;
  }

  /** float() accepts exactly a numeral after an optional sign. */
  lemma ParseDecimalAccepts(s: string)
    ensures ParseDecimal(s).Some? <==>
              DecimalNumeral(s) || (|s| >= 1 && (s[0] == '-' || s[0] == '+') && DecimalNumeral(s[1..]))
  {
    if |s| >= 1 && (s[0] == '-' || s[0] == '+') {
      UnsignedDecimalAccepts(s[1..]);
      assert !DecimalNumeral(s) by {
        assert !IsDigit(s[0]) && s[0] != '.';
      }
    } else {
      UnsignedDecimalAccepts(s);
    }
  }

  /** float() of an optional sign, digits, a point and digits is the signed
      value of the numeral. */
  lemma ParseDecimalOfParts(sign: string, whole: string, frac: string)
    requires sign == "" || sign == "-" || sign == "+"
    requires AllDigits(whole) && AllDigits(frac) && |whole| + |frac| >= 1
    ensures ParseDecimal(sign + whole + "." + frac)
            == Some(if sign == "-" then -DecimalValue(whole, frac) else DecimalValue(whole, frac))
  {
    if sign == "" {
      ParseDecimalOfUnsignedParts(whole, frac);
    } else {
      ParseDecimalOfSignedParts(sign, whole, frac);
    }
  }

  lemma ParseDecimalOfUnsignedParts(whole: string, frac: string)
    requires AllDigits(whole) && AllDigits(frac) && |whole| + |frac| >= 1
    ensures ParseDecimal("" + whole + "." + frac) == Some(DecimalValue(whole, frac))
  {
    var u := whole + "." + frac;
    UnsignedDecimalOfParts(whole, frac);
    assert "" + whole + "." + frac == u;
    NumeralStartsUnsigned(whole, frac);
    ParseDecimalUnsigned(u);
  }

  lemma ParseDecimalOfSignedParts(sign: string, whole: string, frac: string)
    requires sign == "-" || sign == "+"
    requires AllDigits(whole) && AllDigits(frac) && |whole| + |frac| >= 1
    ensures ParseDecimal(sign + whole + "." + frac)
            == Some(if sign == "-" then -DecimalValue(whole, frac) else DecimalValue(whole, frac))
  {
    UnsignedDecimalOfParts(whole, frac);
    SignedText(sign, whole, ".", frac);
    ParseDecimalSigned(sign + whole + "." + frac);
  }

  /** A one-character sign in front of a text. */
  lemma SignedText(sign: string, a: string, b: string, c: string)
    requires |sign| == 1
    ensures var s := sign + a + b + c; |s| >= 1 && s[0] == sign[0] && s[1..] == a + b + c
  {
    var s := sign + a + b + c;
    assert s == sign + (a + b + c);
  }

  lemma NumeralStartsUnsigned(whole: string, frac: string)
    requires AllDigits(whole)
    ensures var u := whole + "." + frac; u[0] != '-' && u[0] != '+'
  {
    if |whole| >= 1 {
      assert IsDigit((whole + "." + frac)[0]);
    }
  }

  lemma ParseDecimalUnsigned(s: string)
    requires |s| >= 1 && s[0] != '-' && s[0] != '+'
    ensures ParseDecimal(s) == UnsignedDecimal(s)
  {
  }

  lemma ParseDecimalSigned(s: string)
    requires |s| >= 1 && (s[0] == '-' || s[0] == '+') && UnsignedDecimal(s[1..]).Some?
    ensures ParseDecimal(s) == Some(if s[0] == '-' then -UnsignedDecimal(s[1..]).value else UnsignedDecimal(s[1..]).value)
  {
  }

  /** The fractional texts the colour entries hold read as expected. */
  lemma ParseDecimalExample()
    ensures ParseDecimal("0.5") == Some(0.5)
  {
  }

  /** A sign and a point with no digit before it. */
  lemma ParseDecimalNegativeExample()
    ensures ParseDecimal("-.5") == Some(-0.5)
  {
  }

  /** Two fractional digits. */
  lemma ParseDecimalTwoPlaces()
    ensures ParseDecimal("1.25") == Some(1.25)
  {
    assert DotIndex("1.25") == 1;
    assert "1.25"[2..] == "25";
    assert DigitsValue("25") == 25 by {
      assert "25"[..1] == "2";
    }
  }

  /** A point with nothing after it. */
  lemma ParseDecimalTrailingPoint()
    ensures ParseDecimal("5.") == Some(5.0)
  {
  }

  /** A lone point and a second point are refused. */
  lemma ParseDecimalRefuses()
    ensures ParseDecimal(".") == None && ParseDecimal("1.2.3") == None
  {
    assert !DecimalNumeral("1.2.3") by {
      assert "1.2.3"[1] == '.' && "1.2.3"[3] == '.';
    }
  }

  /** A plain run of digits reads as its integer value. */
  lemma UnsignedDecimalOfDigits(t: string)
    requires |t| >= 1 && AllDigits(t)
    ensures UnsignedDecimal(t) == Some(DigitsValue(t) as real)
  {
    var k := DotIndex(t);
    assert k == |t|;
    assert t[..k] == t;
    assert DigitsValue("") == 0 && Pow10(0) == 1;
    assert Fraction(DigitsValue(t), 0, 0) == DigitsValue(t) as real;
  }

  /** float() agrees with int() on every text int() accepts. */
  lemma ParseDecimalOfParseInt(s: string)
    requires ParseInt(s).Some?
    ensures ParseDecimal(s) == Some(ParseInt(s).value as real)
  {
    if |s| >= 2 && (s[0] == '-' || s[0] == '+') && AllDigits(s[1..]) {
      UnsignedDecimalOfDigits(s[1..]);
    } else {
      assert AllDigits(s);
      UnsignedDecimalOfDigits(s);
      assert !(s[0] == '-' || s[0] == '+') by { assert IsDigit(s[0]); }
    }
  }

  /** float(str(i)) == i */
  lemma ParseDecimalOfIntToString(i: int)
    ensures ParseDecimal(IntToString(i)) == Some(i as real)
  {
    if i < 0 {
      ParseDecimalNegative(-i);
    } else {
      ParseDecimalNatural(i);
    }
  }

  lemma ParseDecimalNatural(n: nat)
    ensures ParseDecimal(NatToString(n)) == Some(n as real)
  {
    var s := NatToString(n);
    DigitsOfNatToString(n);
    assert IsDigit(s[0]);
    UnsignedDecimalOfDigits(s);
    assert ParseDecimal(s) == UnsignedDecimal(s);
  }

  lemma ParseDecimalNegative(n: nat)
    requires n > 0
    ensures ParseDecimal("-" + NatToString(n)) == Some(-(n as real))
  {
    var t := NatToString(n);
    var s := "-" + t;
    assert s[0] == '-' && s[1..] == t;
    DigitsOfNatToString(n);
    UnsignedDecimalOfDigits(t);
  }

  /** Python's int() applied to a float: truncation toward zero. */
  function Trunc(r: real): int
  {
    if r >= 0.0 then r.Floor else -((-r).Floor)
  }

  function RealAbs(r: real): real { if r < 0.0 then -r else r }

  /** Round half to even of a non-negative real to an integer. */
  function RoundHalfEven(r: real): nat
    requires r >= 0.0
  {
    var f := r.Floor;
    var frac := r - f as real;
    if frac > 0.5 then f + 1
    else if frac < 0.5 then f
    else if f % 2 == 0 then f else f + 1
  }

  function ZeroPad(s: string, width: nat): (r: string)
    ensures |r| >= width && |r| >= |s|
    ensures |s| >= width ==> r == s
    ensures AllDigits(s) ==> AllDigits(r)
    decreases width - |s|
  {
    if |s| >= width then s else ZeroPad("0" + s, width)
  }

  /** Python's f"{r:.Nf}" on the exact value r. */
  function Fixed(r: real, places: nat): (t: string)
    // a sign only for negative values, at least one digit before the
    // point and exactly `places` digits after it
    ensures |t| >= places + (if places > 0 then 2 else 1)
    ensures r < 0.0 <==> t[0] == '-'
    ensures places > 0 ==> t[|t| - places - 1] == '.'
    ensures forall i :: |t| - places <= i < |t| ==> IsDigit(t[i])
    ensures IsDigit(t[|t| - places - (if places > 0 then 2 else 1)])
  {
    FixedText(r < 0.0, Scaled(r, places), places)
  }

  /** |r| * 10^places, rounded half to even. */
  function Scaled(r: real, places: nat): nat
  {
    RoundHalfEven(RealAbs(r) * Pow10(places) as real)
  }

  /** The text of the rounded magnitude q scaled by 10^places. */
  function FixedText(negative: bool, q: nat, places: nat): (t: string)
    ensures |t| >= places + (if places > 0 then 2 else 1)
    ensures negative <==> t[0] == '-'
    ensures places > 0 ==> t[|t| - places - 1] == '.'
    ensures forall i :: |t| - places <= i < |t| ==> IsDigit(t[i])
    ensures IsDigit(t[|t| - places - (if places > 0 then 2 else 1)])
  {
    var digits := ZeroPad(NatToString(q), places + 1);
    var cut := |digits| - places;
    var sign := if negative then "-" else "";
    var t := sign + digits[..cut] + (if places == 0 then "" else "." + digits[cut..]);
    FixedLayout(sign, digits, places, t);
    t
  }

  /** Where the pieces of a fixed-point text end up. */
  lemma FixedLayout(sign: string, digits: string, places: nat, t: string)
    requires |digits| >= places + 1 && AllDigits(digits)
    requires sign == "" || sign == "-"
    requires t == sign + digits[..|digits| - places]
                  + (if places == 0 then "" else "." + digits[|digits| - places..])
    ensures |t| >= places + (if places > 0 then 2 else 1)
    ensures t[0] == '-' <==> sign == "-"
    ensures places > 0 ==> t[|t| - places - 1] == '.'
    ensures forall i :: |t| - places <= i < |t| ==> IsDigit(t[i])
    ensures IsDigit(t[|t| - places - (if places > 0 then 2 else 1)])
  {
    var cut := |digits| - places;
    var head := sign + digits[..cut];
    if places == 0 {
      assert t == head;
      assert digits[..cut] == digits;
    } else {
      var tail := "." + digits[cut..];
      assert t == head + tail;
      assert |tail| == places + 1;
      assert forall i :: |t| - places <= i < |t| ==> t[i] == digits[cut + i - (|t| - places)];
    }
    assert t[|sign|] == digits[0];
    assert t[|head| - 1] == digits[cut - 1];
  }

  /** A whole number written with one decimal ends in `.0`. */
  lemma FixedOnePlaceOfNat(n: nat)
    ensures Fixed(n as real, 1) == NatToString(n) + ".0"
  {
    RoundWholeTenths(n);
    TenthsText(n);
  }

  lemma RoundWholeTenths(n: nat)
    ensures Scaled(n as real, 1) == 10 * n
  {
    var x := RealAbs(n as real) * Pow10(1) as real;
    assert Pow10(1) == 10;
    assert x == (10 * n) as real;
  }

  lemma TenthsText(n: nat)
    ensures FixedText(false, 10 * n, 1) == NatToString(n) + ".0"
  {
    if n == 0 {
      TenthsOfZero();
    } else {
      TenthsOfPositive(n);
    }
  }

  lemma TenthsOfZero()
    ensures FixedText(false, 0, 1) == NatToString(0) + ".0"
  {
    assert ZeroPad("0", 2) == ZeroPad("00", 2) == "00";
  }

  lemma TenthsOfPositive(n: nat)
    requires n > 0
    ensures FixedText(false, 10 * n, 1) == NatToString(n) + ".0"
  {
    var s := NatToString(10 * n);
    assert (10 * n) / 10 == n && (10 * n) % 10 == 0;
    assert s == NatToString(n) + [DigitChar(0)];
    assert ZeroPad(s, 2) == s;
    PointBeforeLast(NatToString(n), '0');
  }

  /** Cutting before the last character and putting a point there. */
  lemma PointBeforeLast(w: string, c: char)
    ensures var s := w + [c]; "" + s[..|s| - 1] + ("." + s[|s| - 1..]) == w + "." + [c]
  {
    var s := w + [c];
    assert s[..|s| - 1] == w;
    assert s[|s| - 1..] == [c];
  }

  // ---------------------------------------------------------------------
  // Strings
  // ---------------------------------------------------------------------

  /** ASCII lower-casing (str.lower() on ASCII letters). */
  function Lower(s: string): (r: string)
    ensures |r| == |s|
    ensures forall i :: 0 <= i < |s| ==> r[i] == LowerChar(s[i])
  {
    if |s| == 0 then "" else [LowerChar(s[0])] + Lower(s[1..])
  }

  function LowerChar(c: char): char
  {
    if 'A' <= c <= 'Z' then ((c as int) - ('A' as int) + ('a' as int)) as char else c
  }

  predicate EndsWith(s: string, suffix: string)
  {
    |suffix| <= |s| && s[|s| - |suffix|..] == suffix
  }

  predicate StartsWith(s: string, prefix: string)
  {
    |prefix| <= |s| && s[..|prefix|] == prefix
  }

  /** Python's `sub in s`. */
  predicate Contains(s: string, sub: string)
    decreases |s|
  {
    StartsWith(s, sub) || (|s| > 0 && Contains(s[1..], sub))
  }

  /** A text containing sub contains sub's first character. */
  lemma {:induction false} ContainsFirstChar(s: string, sub: string)
    requires |sub| > 0 && Contains(s, sub)
    ensures sub[0] in s
    decreases |s|
  {
    if StartsWith(s, sub) {
      assert s[0] == sub[0];
    } else {
      ContainsFirstChar(s[1..], sub);
      assert forall c :: c in s[1..] ==> c in s;
    }
  }

  /** A text contains every piece it is built around. */
  lemma {:induction false} ContainsInside(a: string, m: string, b: string)
    ensures Contains(a + m + b, m)
    decreases |a|
  {
    var s := a + m + b;
    if |a| == 0 {
      assert s[..|m|] == m;
    } else {
      assert s[1..] == a[1..] + m + b;
      ContainsInside(a[1..], m, b);
    }
  }

  /** Text added at the end keeps how a text starts. */
  lemma StartsWithExtend(s: string, t: string, prefix: string)
    requires StartsWith(s, prefix)
    ensures StartsWith(s + t, prefix)
  {
    assert (s + t)[..|prefix|] == s[..|prefix|];
  }

  /** Text added at the end keeps what a text contains. */
  lemma {:induction false} ContainsExtend(s: string, t: string, sub: string)
    requires Contains(s, sub)
    ensures Contains(s + t, sub)
    decreases |s|
  {
    if StartsWith(s, sub) {
      assert (s + t)[..|sub|] == s[..|sub|];
    } else {
      assert (s + t)[1..] == s[1..] + t;
      ContainsExtend(s[1..], t, sub);
    }
  }

  /** Python's s.replace(a, b) for single characters. */
  function ReplaceChar(s: string, a: char, b: char): (r: string)
    ensures |r| == |s|
    ensures forall i :: 0 <= i < |s| ==> r[i] == (if s[i] == a then b else s[i])
  {
    if |s| == 0 then "" else [if s[0] == a then b else s[0]] + ReplaceChar(s[1..], a, b)
  }

  /** Python's sep.join(parts). */
  function JoinWith(parts: seq<string>, sep: string): string
  {
    if |parts| == 0 then ""
    else if |parts| == 1 then parts[0]
    else JoinWith(parts[..|parts| - 1], sep) + sep + parts[|parts| - 1]
  }

  /** A joined list ends with its last part. */
  lemma JoinWithEndsWithLast(parts: seq<string>, sep: string)
    requires |parts| >= 1
    ensures EndsWith(JoinWith(parts, sep), parts[|parts| - 1])
  {
    var j := JoinWith(parts, sep);
    var last := parts[|parts| - 1];
    if |parts| > 1 {
      var pre := JoinWith(parts[..|parts| - 1], sep) + sep;
      assert j == pre + last;
      assert j[|j| - |last|..] == last;
    }
  }

  /** Two parts joined are the first, the separator and the second. */
  lemma JoinWithTwo(a: string, b: string, sep: string)
    ensures JoinWith([a, b], sep) == a + (sep + b)
  {
    assert [a, b][..1] == [a];
  }

  /** A joined list starts with its first part. */
  lemma {:induction false} JoinWithStartsWithFirst(parts: seq<string>, sep: string)
    requires |parts| >= 1
    ensures StartsWith(JoinWith(parts, sep), parts[0])
    decreases |parts|
  {
    if |parts| > 1 {
      var front := parts[..|parts| - 1];
      JoinWithStartsWithFirst(front, sep);
      var j := JoinWith(front, sep);
      assert JoinWith(parts, sep) == j + (sep + parts[|parts| - 1]);
      assert (j + (sep + parts[|parts| - 1]))[..|parts[0]|] == j[..|parts[0]|];
    }
  }

  /** Python's max(lo, min(hi, v)). */
  function Clamp(v: int, lo: int, hi: int): (r: int)
    ensures lo <= hi ==> lo <= r <= hi
    ensures lo <= v <= hi ==> r == v
    ensures v < lo ==> r == lo
    ensures lo <= hi < v ==> r == hi
  {
    var m := if hi < v then hi else v;
    if m < lo then lo else m
  }
}
