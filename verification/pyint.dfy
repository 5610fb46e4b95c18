/** Python's `str(n)` for integers and `int(s)` for base-10 text. */
module PyInt {
  import opened Wrappers
  import PyStr

  predicate IsDigit(c: char) {
    '0' <= c <= '9'
  }

  predicate AllDigits(s: string) {
    forall i :: 0 <= i < |s| ==> IsDigit(s[i])
  }

  function DigitChar(d: nat): (c: char)
    requires d < 10
    ensures IsDigit(c) && c as int - '0' as int == d
  {
    ('0' as int + d) as char
  }

  /** The value of a string of decimal digits, most significant first. */
  function DigitsValue(s: string): nat
    requires AllDigits(s)
  {
    if s == [] then 0
    else 10 * DigitsValue(s[..|s| - 1]) + (s[|s| - 1] as int - '0' as int)
  }

  /** `str(n)` for a natural number: shortest decimal digits. */
  function NatToString(n: nat): (s: string)
    ensures s != [] && AllDigits(s)
    ensures |s| > 1 ==> s[0] != '0'
  {
    if n < 10 then [DigitChar(n)] else NatToString(n / 10) + [DigitChar(n % 10)]
  }

  /** `str(i)`. */
  function IntToString(i: int): (s: string)
    ensures s != []
  {
    if i < 0 then "-" + NatToString(-i) else NatToString(i)
  }

  lemma {:induction false} NatToStringValue(n: nat)
    ensures DigitsValue(NatToString(n)) == n
  {
    if n >= 10 {
      var s := NatToString(n);
      assert s[..|s| - 1] == NatToString(n / 10);
      NatToStringValue(n / 10);
    }
  }

  /** `int(s)` in base 10: surrounding whitespace, an optional sign, then
      one or more ASCII digits; anything else raises ValueError (None). */
  function ParseInt(s: string): (r: Option<int>)
    ensures r.Some? ==> PyStr.Strip(s) != []
  {
    var t := PyStr.Strip(s);
    if t == [] then None else ParseSigned(t)
  }

  /** An optional sign followed by one or more ASCII digits. */
  function ParseSigned(t: string): Option<int>
    requires t != []
  {
    var digits := if t[0] == '-' || t[0] == '+' then t[1..] else t;
    if digits == [] || !AllDigits(digits) then None
    else
      var v: int := DigitsValue(digits);
      Some(if t[0] == '-' then -v else v)
  }

  /** `t` is a sign ("", "+" or "-") followed by one or more ASCII digits,
      and `v` is their value with that sign. */
  predicate SignedDigits(t: string, v: int) {
    || (t != [] && AllDigits(t) && v == DigitsValue(t))
    || (|t| > 1 && t[0] == '+' && AllDigits(t[1..]) && v == DigitsValue(t[1..]))
    || (|t| > 1 && t[0] == '-' && AllDigits(t[1..]) && v == -(DigitsValue(t[1..]) as int))
  }

  /** The text `int()` reads as `v`: a signed number with only whitespace
      before and after it. */
  ghost predicate IntText(s: string, v: int) {
    exists a, b :: 0 <= a < b <= |s| && PyStr.AllSpace(s[..a]) && PyStr.AllSpace(s[b..])
                   && SignedDigits(s[a..b], v)
  }

  /** `int(s)` gives `v` exactly when `s` is a signed number of `v`
      surrounded by whitespace; every other text raises ValueError. */
  lemma ParseIntExact(s: string, v: int)
    ensures ParseInt(s) == Some(v) <==> IntText(s, v)
  {
    if ParseInt(s) == Some(v) {
      ParseIntSound(s, v);
    }
    if IntText(s, v) {
      var a, b :| 0 <= a < b <= |s| && PyStr.AllSpace(s[..a]) && PyStr.AllSpace(s[b..])
                  && SignedDigits(s[a..b], v);
      ParseIntComplete(s, v, a, b);
    }
  }

  /** What `int()` accepts is a signed number between whitespace. */
  lemma ParseIntSound(s: string, v: int)
    requires ParseInt(s) == Some(v)
    ensures IntText(s, v)
  {
    var t := PyStr.Strip(s);
    SignedOfParse(t, v);
    PyStr.StripSlice(s);
    IntTextOf(s, t, v, PyStr.SkipSpace(s, 0));
  }

  lemma IntTextOf(s: string, t: string, v: int, a: nat)
    requires a + |t| <= |s| && t == s[a..a + |t|]
    requires PyStr.AllSpace(s[..a]) && PyStr.AllSpace(s[a + |t|..])
    requires t != [] && SignedDigits(t, v)
    ensures IntText(s, v)
  {
  }

  /** A signed number between whitespace is accepted with its value. */
  lemma ParseIntComplete(s: string, v: int, a: nat, b: nat)
    requires a < b <= |s| && PyStr.AllSpace(s[..a]) && PyStr.AllSpace(s[b..])
    requires SignedDigits(s[a..b], v)
    ensures ParseInt(s) == Some(v)
  {
    var t := s[a..b];
    SignedEnds(t, v);
    PyStr.StripExact(s, a, b);
    ParseOfSigned(t, v);
  }

  lemma SignedOfParse(t: string, v: int)
    requires t != [] && ParseSigned(t) == Some(v)
    ensures SignedDigits(t, v)
  {
  }

  lemma ParseOfSigned(t: string, v: int)
    requires SignedDigits(t, v)
    ensures t != [] && ParseSigned(t) == Some(v)
  {
  }

  /** A signed number starts and ends with something other than
      whitespace. */
  lemma SignedEnds(t: string, v: int)
    requires SignedDigits(t, v)
    ensures t != [] && !PyStr.IsSpace(t[0]) && !PyStr.IsSpace(t[|t| - 1])
  {
    assert IsDigit(t[|t| - 1]) by {
      if !AllDigits(t) {
        assert t[1..][|t| - 2] == t[|t| - 1];
      }
    }
  }

  /** Stripped text with a character after the first that is not a digit
      is refused. */
  lemma ParseRejectsNonDigit(s: string, i: nat)
    requires s != [] && PyStr.IsStripped(s)
    requires 1 <= i < |s| && !IsDigit(s[i])
    ensures ParseInt(s).None?
  {
    ParseStripped(s);
    assert s[i] == s[1..][i - 1];
  }

  /** What `int()` makes of some texts a lifetime might be given as:
      padding and a plus sign are accepted, a unit, a fraction, a bare sign
      or a space after the sign are not. */
  lemma ParseIntExamples()
    ensures ParseInt(" +015 ") == Some(15)
    ensures ParseInt("15m").None?
    ensures ParseInt("1.5").None?
    ensures ParseInt("+").None?
    ensures ParseInt("- 5").None?
  {
    PaddedPlusFifteen();
    UnitRejected();
    FractionRejected();
    BareSignRejected();
    SpaceAfterSignRejected();
  }

  lemma UnitRejected()
    ensures ParseInt("15m").None?
  {
    ParseRejectsNonDigit("15m", 2);
  }

  lemma FractionRejected()
    ensures ParseInt("1.5").None?
  {
    ParseRejectsNonDigit("1.5", 1);
  }

  lemma SpaceAfterSignRejected()
    ensures ParseInt("- 5").None?
  {
    ParseRejectsNonDigit("- 5", 1);
  }

  lemma BareSignRejected()
    ensures ParseInt("+").None?
  {
    ParseStripped("+");
    assert "+"[1..] == [];
  }

  lemma PaddedPlusFifteen()
    ensures ParseInt(" +015 ") == Some(15)
  {
    var s := " +015 ";
    var d := "015";
    assert d[..2] == "01" && "01"[..1] == "0" && "0"[..0] == [];
    assert DigitsValue(d) == 15;
    assert s[1..5] == "+" + d;
    assert ("+" + d)[1..] == d;
    ParseIntComplete(s, 15, 1, 5);
  }

  /** `int(str(i)) == i`. */
  lemma ParseIntRoundTrip(i: int)
    ensures ParseInt(IntToString(i)) == Some(i)
  {
    if i < 0 {
      var n: nat := -i;
      ParseNegative(n);
      assert IntToString(i) == "-" + NatToString(n);
    } else {
      ParseNatural(i);
      assert IntToString(i) == NatToString(i);
    }
  }

  lemma ParseNatural(n: nat)
    ensures ParseInt(NatToString(n)) == Some(n)
  {
    NatToStringValue(n);
    ParseDigits(NatToString(n), n);
  }

  /** Digits alone read as their value. */
  lemma ParseDigits(d: string, v: nat)
    requires d != [] && AllDigits(d) && DigitsValue(d) == v
    ensures ParseInt(d) == Some(v)
  {
    assert IsDigit(d[0]) && IsDigit(d[|d| - 1]);
    assert ParseSigned(d) == Some(v);
    ParseStripped(d);
  }

  lemma ParseNegative(n: nat)
    requires n > 0
    ensures ParseInt("-" + NatToString(n)) == Some(-(n as int))
  {
    NatToStringValue(n);
    ParseMinusDigits(NatToString(n), n);
  }

  /** A minus sign followed by the digits of `v` reads as `-v`. */
  lemma ParseMinusDigits(d: string, v: nat)
    requires d != [] && AllDigits(d) && DigitsValue(d) == v
    ensures ParseInt("-" + d) == Some(-(v as int))
  {
    var s := "-" + d;
    assert s[0] == '-' && s[1..] == d;
    assert ParseSigned(s) == Some(-(v as int));
    assert s[|s| - 1] == d[|d| - 1];
    assert IsDigit(d[|d| - 1]);
    ParseStripped(s);
  }

  /** Text that is already stripped is parsed as it stands. */
  lemma ParseStripped(t: string)
    requires t != [] && PyStr.IsStripped(t)
    ensures ParseInt(t) == ParseSigned(t)
  {
    PyStr.StripStripped(t);
  }
}
