/**
 The five field formats of the receipt validator, each an explicit
 character-class predicate in place of the source's regular expression.

 Every pattern is anchored with `^...$`, and Python's `$` matches either at
 the very end of the string or just before one final line feed. So a field
 is accepted when the pattern's body matches the whole string, or the
 string with one trailing "\n" removed (`Chomp`).
 */
module Formats {
  import opened Text

  /** `s` without its final line feed, if it has one. */
  function Chomp(s: string): (r: string)
    ensures r == s || (|s| > 0 && s[|s| - 1] == '\n' && r == s[..|s| - 1])
    ensures r != s <==> |s| > 0 && s[|s| - 1] == '\n'
  {
    if |s| > 0 && s[|s| - 1] == '\n' then s[..|s| - 1] else s
  }

  /** One character of the class `[\w\s\-\&]`. */
  predicate IsRetailerChar(c: char) {
    IsWordChar(c) || IsSpace(c) || c == '-' || c == '&'
  }

  /** `[\w\s\-\&]+` */
  predicate RetailerBody(s: string) {
    |s| > 0 && forall i :: 0 <= i < |s| ==> IsRetailerChar(s[i])
  }

  /** `\d+\.\d{2}`: one or more digits, a point, exactly two digits. */
  predicate MoneyBody(s: string) {
    && |s| >= 4
    && AllDigits(s[..|s| - 3])
    && s[|s| - 3] == '.'
    && AllDigits(s[|s| - 2..])
  }

  /** `\d{4}-\d{2}-\d{2}` */
  predicate DateBody(s: string) {
    && |s| == 10
    && AllDigits(s[..4]) && s[4] == '-'
    && AllDigits(s[5..7]) && s[7] == '-'
    && AllDigits(s[8..])
  }

  /** `\d{2}:\d{2}` */
  predicate TimeBody(s: string) {
    |s| == 5 && AllDigits(s[..2]) && s[2] == ':' && AllDigits(s[3..])
  }

  /** RETAILER_REGEX */
  predicate IsRetailerName(s: string) {
    RetailerBody(s) || RetailerBody(Chomp(s))
  }

  /** TOTAL_REGEX and PRICE_REGEX (the same pattern) */
  predicate IsMoney(s: string) {
    MoneyBody(s) || MoneyBody(Chomp(s))
  }

  /** DATE_REGEX */
  predicate IsDate(s: string) {
    DateBody(s) || DateBody(Chomp(s))
  }

  /** TIME_REGEX */
  predicate IsTime(s: string) {
    TimeBody(s) || TimeBody(Chomp(s))
  }

  /** The dollars of a money string: the digits before the point. */
  function Dollars(s: string): string
    requires MoneyBody(s)
  {
    s[..|s| - 3]
  }

  /** The cents of a money string: the two digits after the point. */
  function Cents(s: string): string
    requires MoneyBody(s)
  {
    s[|s| - 2..]
  }

  /** The line feed is whitespace, so `$` adds nothing to the retailer
      pattern: a name is accepted exactly when every character is in the class. */
  lemma RetailerNameIff(s: string)
    ensures IsRetailerName(s) <==> RetailerBody(s)
  {
    if Chomp(s) != s && RetailerBody(Chomp(s)) {
      assert forall i :: 0 <= i < |s| - 1 ==> s[i] == Chomp(s)[i];
      assert IsSpace(s[|s| - 1]);
    }
  }

  /** A money string starts and ends with a digit. */
  lemma MoneyBodyEnds(s: string)
    requires MoneyBody(s)
    ensures IsDigit(s[0]) && IsDigit(s[|s| - 1])
  {
    assert s[0] == s[..|s| - 3][0];
    assert s[|s| - 1] == s[|s| - 2..][1];
  }

  /** A money body followed by anything but nothing is not a money body:
      its point would fall among the dollar digits. */
  lemma MoneyBodyNotExtended(b: string, y: string)
    requires MoneyBody(b) && |y| >= 1
    ensures !MoneyBody(b + y)
  {
    var t := b + y;
    assert t[..|t| - 3][|b| - 3] == b[|b| - 3];
  }

  /** `$` on the money pattern: a money string followed by `x` is accepted
      exactly when `x` is empty or a single line feed. */
  lemma MoneyAnchor(b: string, x: string)
    requires MoneyBody(b)
    ensures IsMoney(b + x) <==> x == "" || x == "\n"
  {
    var s := b + x;
    if x == "" {
      assert s == b;
    } else if x == "\n" {
      assert Chomp(s) == b;
    } else {
      MoneyBodyNotExtended(b, x);
      if |x| == 1 {
        assert x == [x[0]];
      } else if s[|s| - 1] == '\n' {
        assert Chomp(s) == b + x[..|x| - 1];
        MoneyBodyNotExtended(b, x[..|x| - 1]);
      }
    }
  }

  /** `$` on the date pattern: a date followed by `x` is accepted exactly
      when `x` is empty or a single line feed. */
  lemma DateAnchor(b: string, x: string)
    requires DateBody(b)
    ensures IsDate(b + x) <==> x == "" || x == "\n"
  {
    var s := b + x;
    if x == "" {
      assert s == b;
    } else if x == "\n" {
      assert Chomp(s) == b;
    } else if |x| == 1 {
      assert x == [x[0]];
    }
  }

  /** `$` on the time pattern: a time followed by `x` is accepted exactly
      when `x` is empty or a single line feed. */
  lemma TimeAnchor(b: string, x: string)
    requires TimeBody(b)
    ensures IsTime(b + x) <==> x == "" || x == "\n"
  {
    var s := b + x;
    if x == "" {
      assert s == b;
    } else if x == "\n" {
      assert Chomp(s) == b;
    } else if |x| == 1 {
      assert x == [x[0]];
    }
  }
}
