/**
 The three parsers the points engine applies to receipt fields:
 `float(s)` on two-decimal money strings (as integer cents), `int(s)`, and
 `datetime.strptime(s, "%H:%M")`. Each returns None where Python raises
 ValueError.
 */
module Numbers {
  import opened Wrappers
  import opened Text
  import opened Formats

  function DigitValue(c: char): (d: nat)
    requires IsDigit(c)
    ensures d < 10
  {
    c as int - '0' as int
  }

  function DigitChar(d: nat): (c: char)
    requires d < 10
    ensures IsDigit(c) && DigitValue(c) == d
  {
    ('0' as int + d) as char
  }

  /** The value of a string of decimal digits, most significant first. */
  function DigitsValue(s: string): nat
    requires AllDigits(s)
  {
    if |s| == 0 then 0 else DigitsValue(s[..|s| - 1]) * 10 + DigitValue(s[|s| - 1])
  }

  /** The shortest decimal spelling of `n`, the inverse of DigitsValue. */
  function NatToDigits(n: nat): (s: string)
    ensures |s| >= 1 && AllDigits(s)
    ensures DigitsValue(s) == n
    ensures n > 0 ==> s[0] != '0'
    decreases n
  {
    if n < 10 then [DigitChar(n)]
    else
      var p := NatToDigits(n / 10);
      var s := p + [DigitChar(n % 10)];
      assert s[..|s| - 1] == p;
      s
  }

  /** The value of a two-digit string. */
  lemma TwoDigits(s: string)
    requires |s| == 2 && AllDigits(s)
    ensures DigitsValue(s) == 10 * DigitValue(s[0]) + DigitValue(s[1])
    ensures DigitsValue(s) < 100
  {
    var p := s[..1];
    assert s[..|s| - 1] == p;
    assert DigitsValue(p) == DigitValue(s[0]) by {
      assert p[..|p| - 1] == [];
    }
  }

  /** The cents denoted by a string matching `\d+\.\d{2}`, or None. */
  function ParseMoney(s: string): (r: Option<nat>)
    ensures r.Some? <==> MoneyBody(s)
    ensures r.Some? ==> r.value / 100 == DigitsValue(Dollars(s))
    ensures r.Some? ==> r.value % 100 == DigitsValue(Cents(s))
  {
    if MoneyBody(s) then
      TwoDigits(Cents(s));
      Some(DigitsValue(Dollars(s)) * 100 + DigitsValue(Cents(s)))
    else None
  }

  /** The canonical two-decimal spelling of an amount in cents. */
  function FormatMoney(c: nat): (s: string)
    ensures MoneyBody(s)
    ensures ParseMoney(s) == Some(c)
  {
    var cents := [DigitChar(c % 100 / 10), DigitChar(c % 10)];
    var s := NatToDigits(c / 100) + "." + cents;
    assert Dollars(s) == NatToDigits(c / 100);
    assert Cents(s) == cents;
    TwoDigits(cents);
    s
  }

  /** `float(s)` on the two-decimal domain, in cents: surrounding whitespace
      is ignored, and anything else that is not `\d+\.\d{2}` fails. */
  function ParseDecimalCents(s: string): Option<nat> {
    ParseMoney(Strip(s))
  }

  /** A string the money pattern accepts, with or without the trailing line
      feed that `$` tolerates, is read by `float` as its dollars and cents. */
  lemma AcceptedMoneyParses(s: string)
    requires IsMoney(s)
    ensures ParseDecimalCents(s).Some?
    ensures var b := if MoneyBody(s) then s else Chomp(s);
      MoneyBody(b) && ParseDecimalCents(s) == ParseMoney(b)
  {
    if MoneyBody(s) {
      MoneyBodyEnds(s);
      StripUnpadded(s);
    } else {
      var b := Chomp(s);
      assert MoneyBody(b);
      assert s == b + "\n" by {
        MoneyBodyEnds(b);
      }
      assert Strip(s) == b by {
        MoneyBodyEnds(b);
        StripUnpadded(b);
      }
    }
  }

  /** `int(s)`: optional surrounding whitespace, an optional sign, then one
      or more decimal digits. */
  function ParseInt(s: string): (r: Option<int>)
    ensures r.Some? <==> var t := Strip(s);
      || (|t| >= 1 && AllDigits(t))
      || (|t| >= 2 && (t[0] == '+' || t[0] == '-') && AllDigits(t[1..]))
  {
    var t := Strip(s);
    if |t| >= 2 && (t[0] == '+' || t[0] == '-') && AllDigits(t[1..]) then
      var magnitude: int := DigitsValue(t[1..]);
      Some(if t[0] == '-' then -magnitude else magnitude)
    else if |t| >= 1 && AllDigits(t) then Some(DigitsValue(t))
    else None
  }

  /** `int` reads back what `str` writes. */
  lemma ParseIntRoundTrip(n: nat)
    ensures ParseInt(NatToDigits(n)) == Some(n)
  {
    var d := NatToDigits(n);
    StripUnpadded(d);
  }

  /** `int` reads a string whose stripped text is all digits as the value
      of those digits. */
  lemma ParseIntOfDigits(s: string, t: string)
    requires Strip(s) == t
    requires |t| >= 1 && AllDigits(t)
    ensures ParseInt(s) == Some(DigitsValue(t))
  {
    assert IsDigit(t[0]);
  }

  /** `int` reads a string whose stripped text is a sign followed by digits
      as the signed value of those digits. */
  lemma ParseIntOfSigned(s: string, t: string)
    requires Strip(s) == t
    requires |t| >= 2 && (t[0] == '+' || t[0] == '-') && AllDigits(t[1..])
    ensures t[0] == '+' ==> ParseInt(s) == Some(DigitsValue(t[1..]))
    ensures t[0] == '-' ==> ParseInt(s) == Some(0 - DigitsValue(t[1..]))
  {
  }

  /** `int` reads back `str(-n)`, the negation's spelling. */
  lemma ParseIntNegated(n: nat)
    ensures ParseInt("-" + NatToDigits(n)) == Some(0 - n)
  {
    var d := NatToDigits(n);
    var t := "-" + d;
    assert Strip(t) == t by {
      assert t[|t| - 1] == d[|d| - 1];
      StripUnpadded(t);
    }
    assert t[1..] == d;
    ParseIntOfSigned(t, t);
  }

  /** `int` reads `+` followed by `str(n)` as `n`. */
  lemma ParseIntPlus(n: nat)
    ensures ParseInt("+" + NatToDigits(n)) == Some(n)
  {
    var d := NatToDigits(n);
    var t := "+" + d;
    assert Strip(t) == t by {
      assert t[|t| - 1] == d[|d| - 1];
      StripUnpadded(t);
    }
    assert t[1..] == d;
    ParseIntOfSigned(t, t);
  }

  datatype Clock = Clock(hour: nat, minute: nat)

  /** The fields of `%H:%M` once the colon is found: the minute is one or
      two digits, and the values are in range. */
  function ClockFields(h: string, m: string): Option<Clock>
    requires 1 <= |h| <= 2 && AllDigits(h)
  {
    if 1 <= |m| <= 2 && AllDigits(m) && DigitsValue(h) <= 23 && DigitsValue(m) <= 59
    then Some(Clock(DigitsValue(h), DigitsValue(m)))
    else None
  }

  /** `datetime.strptime(s, "%H:%M")`: an hour of one or two digits up to
      23, a colon, a minute of one or two digits up to 59, and nothing more. */
  function ParseClock(s: string): (r: Option<Clock>)
    ensures r.Some? ==> r.value.hour <= 23 && r.value.minute <= 59
  {
    if |s| >= 2 && IsDigit(s[0]) && s[1] == ':' then ClockFields(s[..1], s[2..])
    else if |s| >= 3 && IsDigit(s[0]) && IsDigit(s[1]) && s[2] == ':' then ClockFields(s[..2], s[3..])
    else None
  }

  /** `"%02d:%02d" % (hour, minute)` */
  function FormatClock(c: Clock): (s: string)
    requires c.hour <= 23 && c.minute <= 59
    ensures TimeBody(s)
    ensures ParseClock(s) == Some(c)
  {
    var h := [DigitChar(c.hour / 10), DigitChar(c.hour % 10)];
    var m := [DigitChar(c.minute / 10), DigitChar(c.minute % 10)];
    var s := h + ":" + m;
    assert s[..2] == h && s[3..] == m;
    TwoDigits(h);
    TwoDigits(m);
    s
  }

  /** On an `HH:MM` string, `strptime` succeeds exactly when the hour is at
      most 23 and the minute at most 59, and then reads the digits written:
      formatting the result gives the string back. */
  lemma ParseClockRoundTrip(s: string)
    requires TimeBody(s)
    ensures ParseClock(s).Some? <==> DigitsValue(s[..2]) <= 23 && DigitsValue(s[3..]) <= 59
    ensures ParseClock(s).Some? ==> s == FormatClock(ParseClock(s).value)
  {
    var h := s[..2];
    var m := s[3..];
    assert IsDigit(s[0]) && IsDigit(s[1]) && IsDigit(s[3]) by {
      assert s[0] == h[0] && s[1] == h[1] && s[3] == m[0];
    }
    assert ParseClock(s) == ClockFields(h, m);
    TwoDigits(h);
    TwoDigits(m);
    if ParseClock(s).Some? {
      var f := FormatClock(ParseClock(s).value);
      assert f[0] == s[0] && f[1] == s[1] && f[2] == s[2];
      assert f[3] == s[3] && f[4] == m[1];
    }
  }
}
