/** How the text of an `<input type="number">` becomes the number the
    change handler reads. The browser replaces text that is not a valid
    floating-point number by the empty string before the handler sees it,
    and the handler then reads `Number(text)`; both steps together are
    `ParseNumber`, which answers `None` for the empty string and for any
    text the browser would have blanked. */
module NumberParse {
  import opened Wrappers

  predicate IsDigit(c: char) {
    '0' <= c <= '9'
  }

  predicate AllDigits(s: string) {
    forall i :: 0 <= i < |s| ==> IsDigit(s[i])
  }

  function Pow10(k: nat): (r: nat)
    ensures r >= 1
  {
    if k == 0 then 1 else 10 * Pow10(k - 1)
  }

  /** The value of a string of decimal digits, most significant first. */
  function DigitsValue(s: string): nat
    requires AllDigits(s)
  {
    if s == [] then 0
    else DigitsValue(s[..|s| - 1]) * 10 + (s[|s| - 1] as int - '0' as int)
  }

  /** The position of the first '.' in `s`, or `|s|` when there is none. */
  function FirstDot(s: string): (k: nat)
    ensures k <= |s|
    ensures k < |s| ==> s[k] == '.'
    ensures forall j :: 0 <= j < k ==> s[j] != '.'
  {
    if s == [] then 0
    else if s[0] == '.' then 0
    else 1 + FirstDot(s[1..])
  }

  /** A number without sign: digits, digits '.' digits, or '.' digits. */
  function ParseUnsigned(s: string): Option<real> {
    var k := FirstDot(s);
    var whole, frac := s[..k], if k < |s| then s[k + 1..] else "";
    if !AllDigits(whole) || !AllDigits(frac) then None
    else if k == |s| && whole == [] then None
    else if k < |s| && frac == [] then None
    else Some(DecimalValue(whole, frac))
  }

  /** The value of `whole.frac` written in decimal. */
  function DecimalValue(whole: string, frac: string): real
    requires AllDigits(whole) && AllDigits(frac)
  {
    DigitsValue(whole) as real + DigitsValue(frac) as real / Pow10(|frac|) as real
  }

  /** The number the change handler sees for `text`, or `None` when it sees
      the empty string. Exponent notation ("1e3") is not modelled. */
  function ParseNumber(text: string): (r: Option<real>)
    ensures text == "" ==> r == None
    ensures text != "" && AllDigits(text) ==> r == Some(DigitsValue(text) as real)
  {
    if text == "" then None
    else if text[0] == '-' then
      match ParseUnsigned(text[1..])
      case Some(v) => Some(-v)
      case None => None
    else
      if AllDigits(text) then DigitsParsed(text); ParseUnsigned(text)
      else ParseUnsigned(text)
  }

  /** A string of digits alone parses to its decimal value. */
  lemma DigitsParsed(s: string)
    requires s != [] && AllDigits(s)
    ensures ParseUnsigned(s) == Some(DigitsValue(s) as real)
  {
    var k := FirstDot(s);
    if k < |s| {
      assert false;
    }
    assert s[..k] == s;
  }

  /** A leading zero does not change the value of a digit string. */
  lemma {:induction false} LeadingZeroIgnored(s: string)
    requires AllDigits(s)
    ensures AllDigits("0" + s) && DigitsValue("0" + s) == DigitsValue(s)
  {
    var t := "0" + s;
    assert AllDigits(t) by {
      forall i | 0 <= i < |t| ensures IsDigit(t[i]) {
        if i > 0 { assert t[i] == s[i - 1]; }
      }
    }
    if s != [] {
      var init := s[..|s| - 1];
      assert t[..|t| - 1] == "0" + init;
      assert t[|t| - 1] == s[|s| - 1];
      LeadingZeroIgnored(init);
    }
  }

  /** The search for the point passes over leading digits. */
  lemma {:induction false} FirstDotAfterDigits(whole: string, rest: string)
    requires AllDigits(whole)
    ensures FirstDot(whole + rest) == |whole| + FirstDot(rest)
  {
    if whole != [] {
      assert IsDigit(whole[0]);
      assert (whole + rest)[0] == whole[0];
      assert (whole + rest)[1..] == whole[1..] + rest;
      FirstDotAfterDigits(whole[1..], rest);
    } else {
      assert whole + rest == rest;
    }
  }

  /** Digits, a point and digits parse to the whole part plus the fraction. */
  lemma DecimalParsed(whole: string, frac: string)
    requires AllDigits(whole) && AllDigits(frac) && frac != []
    ensures ParseUnsigned(whole + "." + frac) == Some(DecimalValue(whole, frac))
  {
    var s := whole + ("." + frac);
    assert s == whole + "." + frac;
    FirstDotAfterDigits(whole, "." + frac);
    assert FirstDot(s) == |whole|;
    assert s[..|whole|] == whole;
    assert s[|whole| + 1..] == frac;
  }

  /** A three-digit number parses to its decimal value. */
  lemma ParseThreeDigits(text: string, n: nat)
    requires |text| == 3 && AllDigits(text)
    requires n == 100 * (text[0] as int - '0' as int) + 10 * (text[1] as int - '0' as int)
                  + (text[2] as int - '0' as int)
    ensures ParseNumber(text) == Some(n as real)
  {
    var d0, d1, d2 := text[0] as int - '0' as int, text[1] as int - '0' as int, text[2] as int - '0' as int;
    assert text[..2][..1] == text[..1] && text[..1][..0] == "";
    assert DigitsValue(text[..1]) == d0;
    assert DigitsValue(text[..2]) == 10 * d0 + d1;
    assert text[..3] == text;
    assert DigitsValue(text) == 100 * d0 + 10 * d1 + d2;
  }

  /** Typing "0100" yields the number 100, so the field shows "100". */
  lemma LeadingZerosExample()
    ensures ParseNumber("0100") == Some(100.0)
  {
    LeadingZeroIgnored("100");
    assert "0" + "100" == "0100";
    assert "100"[..2] == "10" && "10"[..1] == "1" && "1"[..0] == "";
    assert DigitsValue("100") == 100;
  }

  lemma DecimalExample()
    ensures ParseNumber("104.5") == Some(104.5)
  {
    DecimalParsed("104", "5");
    assert "104" + "." + "5" == "104.5";
    assert "104"[..2] == "10" && "10"[..1] == "1" && "1"[..0] == "" && "5"[..0] == "";
    assert DigitsValue("104") == 104;
  }

  lemma DecimalBelowHalfExample()
    ensures ParseNumber("100.4") == Some(100.4)
  {
    DecimalParsed("100", "4");
    assert "100" + "." + "4" == "100.4";
    assert "100"[..2] == "10" && "10"[..1] == "1" && "1"[..0] == "" && "4"[..0] == "";
    assert DigitsValue("100") == 100;
  }

  lemma NegativeExample()
    ensures ParseNumber("-100") == Some(-100.0)
  {
    assert "-100"[1..] == "100";
    DigitsParsed("100");
    assert "100"[..2] == "10" && "10"[..1] == "1" && "1"[..0] == "";
    assert DigitsValue("100") == 100;
  }

  /** Text the browser would blank reads as no number at all. */
  lemma NonNumericExample()
    ensures ParseNumber("123abc") == None
  {
    var s := "123abc";
    FirstDotAfterDigits("123", "abc");
    assert s == "123" + "abc";
    assert !IsDigit(s[3]);
  }
}
