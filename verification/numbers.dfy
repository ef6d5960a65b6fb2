/**
 * JavaScript's `parseInt` called without a radix, and the decimal
 * rendering a template literal such as `${index + 1}` gives an integer.
 */
module Numbers {
  import opened Wrappers
  import Strings

  predicate IsDecimalDigit(c: char) {
    '0' <= c <= '9'
  }

  /** A digit in base 10 or 16 (either case for a-f). */
  predicate IsDigit(c: char, radix: nat) {
    if radix == 16 then IsDecimalDigit(c) || 'a' <= c <= 'f' || 'A' <= c <= 'F'
    else IsDecimalDigit(c)
  }

  function DigitValue(c: char): (v: nat)
    ensures IsDecimalDigit(c) ==> v < 10
    ensures IsDigit(c, 16) ==> v < 16
  {
    if IsDecimalDigit(c) then c as int - '0' as int
    else if 'a' <= c <= 'f' then c as int - 'a' as int + 10
    else if 'A' <= c <= 'F' then c as int - 'A' as int + 10
    else 0
  }

  /** The longest prefix of s made of radix digits. */
  function DigitPrefix(s: string, radix: nat): (ds: string)
    ensures |ds| <= |s| && ds == s[..|ds|]
    ensures forall i :: 0 <= i < |ds| ==> IsDigit(ds[i], radix)
    ensures |ds| == |s| || !IsDigit(s[|ds|], radix)
  {
    if |s| == 0 || !IsDigit(s[0], radix) then []
    else [s[0]] + DigitPrefix(s[1..], radix)
  }

  /** The number a digit string denotes, most significant digit first. */
  function DigitsValue(ds: string, radix: nat): nat
  {
    if |ds| == 0 then 0
    else DigitsValue(ds[..|ds| - 1], radix) * radix + DigitValue(ds[|ds| - 1])
  }

  /**
   * The unsigned part of parseInt: a `0x`/`0X` prefix switches to base 16,
   * and the longest run of digits that follows is the value; None when
   * there is no digit.
   */
  function ParseMagnitude(u: string): (r: Option<nat>)
    ensures r.Some? ==> u != [] && IsDecimalDigit(u[0])
  {
    var hex := |u| >= 2 && u[0] == '0' && (u[1] == 'x' || u[1] == 'X');
    var radix := if hex then 16 else 10;
    var ds := DigitPrefix(if hex then u[2..] else u, radix);
    if |ds| == 0 then None else Some(DigitsValue(ds, radix))
  }

  /**
   * `parseInt(arg)` with no radix: leading whitespace is skipped, then a
   * signed number is read. With no digits, or no argument at all
   * (`parseInt(undefined)`), the result is NaN, here None.
   */
  function ParseInt(arg: Option<string>): (r: Option<int>)
    ensures r.Some? ==> arg.Some? && StartsWithNumber(arg.value[Strings.LeadingWhitespace(arg.value)..])
    ensures r.Some? && r.value < 0 ==> arg.value[Strings.LeadingWhitespace(arg.value)..][0] == '-'
  {
    match arg
    case None => None
    case Some(s) => ParseSigned(s[Strings.LeadingWhitespace(s)..])
  }

  /** One optional sign, then the magnitude; a `-` negates it. */
  function ParseSigned(t: string): (r: Option<int>)
    ensures r.Some? ==> StartsWithNumber(t)
    ensures r.Some? && r.value < 0 ==> t[0] == '-'
  {
    var signed := |t| > 0 && (t[0] == '-' || t[0] == '+');
    match ParseMagnitude(if signed then t[1..] else t)
    case None => None
    case Some(v) => Some(if signed && t[0] == '-' then -(v as int) else v as int)
  }

  /** t starts with a decimal digit, or with a sign and then a decimal digit. */
  predicate StartsWithNumber(t: string) {
    (t != [] && IsDecimalDigit(t[0]))
    || (|t| >= 2 && (t[0] == '-' || t[0] == '+') && IsDecimalDigit(t[1]))
  }

  function DigitChar(d: nat): (c: char)
    requires d < 10
    ensures IsDecimalDigit(c) && DigitValue(c) == d
  {
    ('0' as int + d) as char
  }

  /** The decimal digits of n, without leading zeros. */
  function Digits(n: nat): (ds: string)
    ensures |ds| >= 1
    ensures forall i :: 0 <= i < |ds| ==> IsDecimalDigit(ds[i])
    ensures ds[0] == '0' <==> n == 0
  {
    if n < 10 then [DigitChar(n)] else Digits(n / 10) + [DigitChar(n % 10)]
  }

  /** An integer as JavaScript prints it in a template literal. */
  function DecimalString(n: int): (s: string)
    ensures s != [] && (s[0] == '-' <==> n < 0)
    ensures var mag := if n < 0 then s[1..] else s;
      && mag != []
      && (forall i :: 0 <= i < |mag| ==> IsDecimalDigit(mag[i]))
      && (mag[0] == '0' ==> n == 0)
      && DigitsValue(mag, 10) == if n < 0 then -n else n
  {
    DigitsValueOfDigits(if n < 0 then -n else n);
    if n < 0 then
      assert ("-" + Digits(-n))[1..] == Digits(-n);
      "-" + Digits(-n)
    else Digits(n)
  }

  lemma {:induction false} DigitsValueOfDigits(n: nat)
    ensures DigitsValue(Digits(n), 10) == n
  {
    if n >= 10 {
      DigitsValueOfDigits(n / 10);
      var ds := Digits(n);
      assert ds[..|ds| - 1] == Digits(n / 10);
    }
  }

  lemma {:induction false} DigitPrefixOfDigits(ds: string, rest: string)
    requires forall i :: 0 <= i < |ds| ==> IsDecimalDigit(ds[i])
    requires rest == [] || !IsDecimalDigit(rest[0])
    ensures DigitPrefix(ds + rest, 10) == ds
  {
    if |ds| > 0 {
      assert (ds + rest)[1..] == ds[1..] + rest;
      DigitPrefixOfDigits(ds[1..], rest);
    }
  }

  lemma {:induction false} MagnitudeOfDigits(m: nat, rest: string)
    requires rest == [] || (!IsDecimalDigit(rest[0]) && (m != 0 || (rest[0] != 'x' && rest[0] != 'X')))
    ensures ParseMagnitude(Digits(m) + rest) == Some(m)
  {
    var ds := Digits(m);
    var u := ds + rest;
    assert !(|u| >= 2 && u[0] == '0' && (u[1] == 'x' || u[1] == 'X')) by {
      if |u| >= 2 && u[0] == '0' {
        assert m == 0 && |ds| == 1 && u[1] == rest[0];
      }
    }
    DigitPrefixOfDigits(ds, rest);
    DigitsValueOfDigits(m);
  }

  /** A minus sign in front of a magnitude negates it. */
  lemma {:induction false} ParseNegated(ds: string, rest: string, m: nat)
    requires ParseMagnitude(ds + rest) == Some(m)
    ensures ParseInt(Some("-" + ds + rest)) == Some(-(m as int))
  {
    assert "-" + ds + rest == [] + (['-'] + (ds + rest));
    ParseSignAfter([], '-', ds + rest, m);
  }

  /** Without sign or leading whitespace, parseInt reads the magnitude alone. */
  lemma {:induction false} ParseUnsigned(u: string, m: nat)
    requires ParseMagnitude(u) == Some(m)
    requires u[0] != '-' && u[0] != '+' && !Strings.IsWhitespace(u[0])
    ensures ParseInt(Some(u)) == Some(m)
  {
    assert u[Strings.LeadingWhitespace(u)..] == u;
  }

  /**
   * parseInt reads back the decimal rendering of any integer, whatever
   * non-digit text follows it (for 0, the text must not be an `x`/`X` that
   * would make a hex prefix).
   */
  lemma {:induction false} ParseDecimalString(n: int, rest: string)
    requires rest == [] || (!IsDecimalDigit(rest[0]) && (n != 0 || (rest[0] != 'x' && rest[0] != 'X')))
    ensures ParseInt(Some(DecimalString(n) + rest)) == Some(n)
  {
    if n < 0 {
      MagnitudeOfDigits(-n, rest);
      ParseNegated(Digits(-n), rest, -n);
    } else {
      MagnitudeOfDigits(n, rest);
      ParseUnsigned(Digits(n) + rest, n);
    }
  }

  /**
   * A run of decimal digits not read as a hex prefix: its value. A `0`
   * alone followed by `x`/`X` would start a hex number instead.
   */
  lemma {:induction false} ParseMagnitudeDecimal(ds: string, rest: string)
    requires ds != [] && forall i :: 0 <= i < |ds| ==> IsDecimalDigit(ds[i])
    requires rest == [] || !IsDecimalDigit(rest[0])
    requires !(|ds| == 1 && ds[0] == '0' && rest != [] && (rest[0] == 'x' || rest[0] == 'X'))
    ensures ParseMagnitude(ds + rest) == Some(DigitsValue(ds, 10))
  {
    var u := ds + rest;
    assert !(|u| >= 2 && u[0] == '0' && (u[1] == 'x' || u[1] == 'X')) by {
      if |u| >= 2 && u[0] == '0' && |ds| >= 2 {
        assert u[1] == ds[1];
      } else if |u| >= 2 && u[0] == '0' {
        assert u[1] == rest[0];
      }
    }
    DigitPrefixOfDigits(ds, rest);
  }

  /** parseInt skips exactly the whitespace in front of the text that follows it. */
  lemma {:induction false} ParseSkipsWhitespace(ws: string, u: string)
    requires Strings.AllWhitespace(ws)
    requires u == [] || !Strings.IsWhitespace(u[0])
    ensures ParseInt(Some(ws + u)) == ParseSigned(u)
  {
    Strings.LeadingWhitespaceOf(ws, u);
    assert (ws + u)[|ws|..] == u;
  }

  /** After leading whitespace, digits are read as the magnitude. */
  lemma {:induction false} ParseDigitsAfter(ws: string, u: string, v: nat)
    requires Strings.AllWhitespace(ws)
    requires u != [] && IsDecimalDigit(u[0])
    requires ParseMagnitude(u) == Some(v)
    ensures ParseInt(Some(ws + u)) == Some(v as int)
  {
    ParseSkipsWhitespace(ws, u);
  }

  /** After leading whitespace, one `-` in front of a magnitude negates it and one `+` keeps it. */
  lemma {:induction false} ParseSignAfter(ws: string, c: char, u: string, v: nat)
    requires Strings.AllWhitespace(ws)
    requires c == '-' || c == '+'
    requires ParseMagnitude(u) == Some(v)
    ensures ParseInt(Some(ws + ([c] + u))) == Some(if c == '-' then -(v as int) else v as int)
  {
    ParseSkipsWhitespace(ws, [c] + u);
    assert ([c] + u)[1..] == u;
  }

  /**
   * parseInt skips leading whitespace and reads any run of decimal digits,
   * leading zeros included, up to the first non-digit: `"\t02 x"` gives 2.
   */
  lemma {:induction false} ParseUnsignedDecimal(ws: string, ds: string, rest: string)
    requires Strings.AllWhitespace(ws)
    requires ds != [] && forall i :: 0 <= i < |ds| ==> IsDecimalDigit(ds[i])
    requires rest == [] || !IsDecimalDigit(rest[0])
    requires !(|ds| == 1 && ds[0] == '0' && rest != [] && (rest[0] == 'x' || rest[0] == 'X'))
    ensures ParseInt(Some(ws + (ds + rest))) == Some(DigitsValue(ds, 10) as int)
  {
    ParseMagnitudeDecimal(ds, rest);
    ParseDigitsAfter(ws, ds + rest, DigitsValue(ds, 10));
  }

  /** After leading whitespace, one `-` negates the digits that follow and one `+` keeps them: `" +2"` gives 2. */
  lemma {:induction false} ParseSignedDecimal(ws: string, c: char, ds: string, rest: string)
    requires Strings.AllWhitespace(ws)
    requires c == '-' || c == '+'
    requires ds != [] && forall i :: 0 <= i < |ds| ==> IsDecimalDigit(ds[i])
    requires rest == [] || !IsDecimalDigit(rest[0])
    requires !(|ds| == 1 && ds[0] == '0' && rest != [] && (rest[0] == 'x' || rest[0] == 'X'))
    ensures ParseInt(Some(ws + ([c] + (ds + rest))))
      == Some(if c == '-' then -(DigitsValue(ds, 10) as int) else DigitsValue(ds, 10) as int)
  {
    ParseMagnitudeDecimal(ds, rest);
    ParseSignAfter(ws, c, ds + rest, DigitsValue(ds, 10));
  }
}
