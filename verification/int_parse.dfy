/** `Integer.parseInt` on decimal strings: an optional `+` or `-`, then one or
    more ASCII digits, with a value inside the 32-bit `int` range; and the
    decimal form Java prints an `int` in. */
module IntParse {
  import opened Wrappers

  const IntMin: int := -0x8000_0000
  const IntMax: int := 0x7FFF_FFFF

  predicate IsDigit(c: char) {
    '0' <= c <= '9'
  }

  predicate AllDigits(ds: string) {
    forall i :: 0 <= i < |ds| ==> IsDigit(ds[i])
  }

  function DigitValue(c: char): nat
    requires IsDigit(c)
  {
    c as int - '0' as int
  }

  function DigitChar(d: nat): (c: char)
    requires d < 10
    ensures IsDigit(c) && DigitValue(c) == d
  {
    ('0' as int + d) as char
  }

  /** The value of a run of decimal digits, most significant first. */
  function DigitsValue(ds: string): nat
    requires AllDigits(ds)
  {
    if |ds| == 0 then 0
    else DigitsValue(ds[..|ds| - 1]) * 10 + DigitValue(ds[|ds| - 1])
  }

  /** The sign and digits of a string of the accepted shape, or `None`: the
      shape is one or more digits, optionally after a single `+` or `-`. */
  function SignedDigits(s: string): (r: Option<(bool, string)>)
    ensures r.Some? <==> (|s| > 0 && AllDigits(s)) || (|s| > 1 && (s[0] == '+' || s[0] == '-') && AllDigits(s[1..]))
    ensures r.Some? ==> r.value == (s[0] == '-', if IsDigit(s[0]) then s else s[1..])
    ensures r.Some? ==> |r.value.1| > 0 && AllDigits(r.value.1)
  {
    if |s| == 0 then None
    else
      var negative := s[0] == '-';
      var digits := if s[0] == '-' || s[0] == '+' then s[1..] else s;
      if |digits| == 0 || !AllDigits(digits) then None
      else Some((negative, digits))
  }

  /** The value a sign and a run of digits denote. */
  function SignedValue(negative: bool, digits: string): int
    requires AllDigits(digits)
  {
    if negative then 0 - DigitsValue(digits) else DigitsValue(digits)
  }

  /** `Integer.parseInt(s)`: `None` stands for the NumberFormatException. A
      string parses exactly when it has the accepted shape and its value fits
      in 32 bits, and then it parses to that value. */
  function ParseInt(s: string): (r: Option<int>)
    ensures r.Some? <==> SignedDigits(s).Some? && IntMin <= SignedValue(SignedDigits(s).value.0, SignedDigits(s).value.1) <= IntMax
    ensures r.Some? ==> r.value == SignedValue(SignedDigits(s).value.0, SignedDigits(s).value.1)
    ensures r.Some? ==> IntMin <= r.value <= IntMax
  {
    match SignedDigits(s)
    case None => None
    case Some((negative, digits)) =>
      var magnitude: int := DigitsValue(digits);
      var v := if negative then -magnitude else magnitude;
      if IntMin <= v <= IntMax then Some(v) else None
  }

  /** The decimal digits of a natural number, without leading zeros. */
  function NatToString(n: nat): (r: string)
    ensures |r| > 0 && AllDigits(r)
    ensures r[0] == '0' <==> n == 0
    decreases n
  {
    if n < 10 then [DigitChar(n)] else NatToString(n / 10) + [DigitChar(n % 10)]
  }

  /** The decimal form of an integer, as string concatenation prints an
      `int`: a leading `-` exactly for a negative number, then digits without
      leading zeros. */
  function IntToString(n: int): (r: string)
    ensures |r| > 0 && (r[0] == '-' <==> n < 0)
    ensures var digits := if n < 0 then r[1..] else r;
      |digits| > 0 && AllDigits(digits) && (digits[0] == '0' <==> n == 0)
  {
    if n < 0 then "-" + NatToString(-n) else NatToString(n)
  }

  lemma {:induction false} DigitsValueOfNatToString(n: nat)
    ensures DigitsValue(NatToString(n)) == n
    decreases n
  {
    var r := NatToString(n);
    if n >= 10 {
      DigitsValueOfNatToString(n / 10);
      assert r[..|r| - 1] == NatToString(n / 10);
    }
  }

  /** Round trip: every 32-bit integer printed in decimal parses back to
      itself. */
  lemma ParseIntToString(n: int)
    requires IntMin <= n <= IntMax
    ensures ParseInt(IntToString(n)) == Some(n)
  {
    SignedDigitsOfIntToString(n);
  }

  /** Outside the 32-bit range, the decimal form is rejected. */
  lemma ParseIntOutOfRange(n: int)
    requires n < IntMin || IntMax < n
    ensures ParseInt(IntToString(n)) == None
  {
    SignedDigitsOfIntToString(n);
  }

  /** The decimal form of `n` has the accepted shape and denotes `n`. */
  lemma SignedDigitsOfIntToString(n: int)
    ensures SignedDigits(IntToString(n)).Some?
    ensures SignedValue(SignedDigits(IntToString(n)).value.0, SignedDigits(IntToString(n)).value.1) == n
  {
    var s := IntToString(n);
    if n < 0 {
      DigitsValueOfNatToString(-n);
      assert s[1..] == NatToString(-n);
      assert SignedDigits(s) == Some((true, NatToString(-n)));
    } else {
      DigitsValueOfNatToString(n);
      assert IsDigit(s[0]);
      assert SignedDigits(s) == Some((false, s));
    }
  }

  /** The accepted shape: an optional `+` or `-` followed by at least one
      digit, leading zeros allowed; the sign alone or nothing is rejected. */
  lemma ParseIntShape(ds: string)
    requires |ds| > 0 && AllDigits(ds)
    ensures ParseInt(ds) == (if DigitsValue(ds) <= IntMax then Some(DigitsValue(ds) as int) else None)
    ensures ParseInt("+" + ds) == ParseInt(ds)
    ensures ParseInt("-" + ds) == (if DigitsValue(ds) <= -IntMin then Some(0 - DigitsValue(ds) as int) else None)
  {
    assert IsDigit(ds[0]);
    assert SignedDigits(ds) == Some((false, ds));
    assert ("+" + ds)[1..] == ds;
    assert SignedDigits("+" + ds) == Some((false, ds));
    assert ("-" + ds)[1..] == ds;
    assert SignedDigits("-" + ds) == Some((true, ds));
  }

  /** Nothing, or a sign alone, is rejected. */
  lemma ParseIntRejectsBareSign()
    ensures ParseInt("") == None && ParseInt("+") == None && ParseInt("-") == None
  {
    assert SignedDigits("+") == None;
    assert SignedDigits("-") == None;
  }
}
