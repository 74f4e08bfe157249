/**
 Properties of the points engine: how each rule reads a field that passed
 validation, how the rules combine, and the score of the sample receipt.
 */
module ScoringFacts {
  import opened Wrappers
  import opened Text
  import opened Formats
  import opened Numbers
  import opened Receipts
  import opened Validation
  import opened Scoring

  /** Counting alphanumerics distributes over concatenation. */
  lemma {:induction false} AlnumCountAppend(a: string, b: string)
    ensures AlnumCount(a + b) == AlnumCount(a) + AlnumCount(b)
  {
    if |a| > 0 {
      assert (a + b)[1..] == a[1..] + b;
      AlnumCountAppend(a[1..], b);
    } else {
      assert a + b == b;
    }
  }

  /** Rule 5 is a sum over items: the points of two lists joined are the
      points of each list added. */
  lemma {:induction false} DescriptionPointsAppend(xs: seq<Item>, ys: seq<Item>)
    ensures DescriptionPoints(xs + ys) == DescriptionPoints(xs) + DescriptionPoints(ys)
  {
    if |xs| > 0 {
      assert (xs + ys)[1..] == xs[1..] + ys;
      DescriptionPointsAppend(xs[1..], ys);
    } else {
      assert xs + ys == ys;
    }
  }

  /** Rule 5 adds each item's own points: a single item earns exactly its
      ItemPoints, and appending an item to a list adds its ItemPoints. */
  lemma DescriptionPointsSnoc(init: seq<Item>, last: Item)
    ensures DescriptionPoints([last]) == ItemPoints(last)
    ensures DescriptionPoints(init + [last]) == DescriptionPoints(init) + ItemPoints(last)
  {
    assert DescriptionPoints([last]) == ItemPoints(last) by {
      assert [last][1..] == [];
    }
    DescriptionPointsAppend(init, [last]);
  }

  /** A digit character is determined by its value. */
  lemma DigitValueInjective(c: char, d: char)
    requires IsDigit(c) && IsDigit(d) && DigitValue(c) == DigitValue(d)
    ensures c == d
  {
    assert c as int == d as int;
  }

  /** A two-digit string has value `n` exactly when it spells `n`. */
  lemma TwoDigitsSpell(s: string, n: nat)
    requires |s| == 2 && AllDigits(s) && n < 100
    ensures DigitsValue(s) == n <==> s == [DigitChar(n / 10), DigitChar(n % 10)]
  {
    TwoDigits(s);
    var spelled := [DigitChar(n / 10), DigitChar(n % 10)];
    if DigitsValue(s) == n {
      DigitValueInjective(s[0], spelled[0]);
      DigitValueInjective(s[1], spelled[1]);
      assert s == spelled;
    }
  }

  /** A whole-dollar total is also a multiple of 0.25, so it always earns
      both the 50 and the 25 points. */
  lemma WholeDollarEarnsQuarter(total: string)
    requires RoundDollarPoints(total) == 50
    ensures QuarterPoints(total) == 25
  {
    var c := ParseDecimalCents(total).value;
    assert c == 25 * (4 * (c / 100));
  }

  /** A total that passed validation is read as its dollars and cents,
      with or without the line feed the pattern tolerates. */
  lemma AcceptedTotalCents(b: string, s: string)
    requires MoneyBody(b)
    requires s == b || s == b + "\n"
    ensures ParseDecimalCents(s) == Some(100 * DigitsValue(Dollars(b)) + DigitsValue(Cents(b)))
    ensures DigitsValue(Cents(b)) < 100
  {
    MoneyBodyEnds(b);
    StripUnpadded(b);
    TwoDigits(Cents(b));
    var c := ParseMoney(b).value;
    assert c == 100 * (c / 100) + c % 100;
  }

  /** Rule 2 on a validated total: 50 points exactly when the cents are "00". */
  lemma RoundDollarOnMoney(b: string, s: string)
    requires MoneyBody(b)
    requires s == b || s == b + "\n"
    ensures RoundDollarPoints(s) == 50 <==> Cents(b) == "00"
  {
    var w, f := DigitsValue(Dollars(b)), DigitsValue(Cents(b));
    assert RoundDollarPoints(s) == (if (100 * w + f) % 100 == 0 then 50 else 0) && f < 100 by {
      AcceptedTotalCents(b, s);
    }
    WholeDollarsMod(w, f);
    assert f == 0 <==> Cents(b) == "00" by {
      TwoDigitsSpell(Cents(b), 0);
    }
  }

  /** Adding whole dollars leaves the cents remainder alone. */
  lemma WholeDollarsMod(w: nat, f: nat)
    requires f < 100
    ensures (100 * w + f) % 100 == f
  {
  }

  /** Whole dollars are a multiple of 25 cents, so only the cents decide. */
  lemma QuarterOfCents(w: nat, f: nat)
    ensures (100 * w + f) % 25 == f % 25
  {
    assert 100 * w + f == 25 * (4 * w) + f;
  }

  /** Two cent digits denote a multiple of 25 exactly when they are
      "00", "25", "50" or "75". */
  lemma QuarterCents(cents: string)
    requires |cents| == 2 && AllDigits(cents)
    ensures DigitsValue(cents) % 25 == 0 <==> cents in {"00", "25", "50", "75"}
  {
    TwoDigits(cents);
    var f := DigitsValue(cents);
    assert f % 25 == 0 <==> f == 0 || f == 25 || f == 50 || f == 75;
    TwoDigitsSpell(cents, 0);
    TwoDigitsSpell(cents, 25);
    TwoDigitsSpell(cents, 50);
    TwoDigitsSpell(cents, 75);
  }

  /** Rule 3 on a validated total: 25 points exactly when the cents are
      "00", "25", "50" or "75". */
  lemma QuarterOnMoney(b: string, s: string)
    requires MoneyBody(b)
    requires s == b || s == b + "\n"
    ensures QuarterPoints(s) == 25 <==> Cents(b) in {"00", "25", "50", "75"}
  {
    var w, f := DigitsValue(Dollars(b)), DigitsValue(Cents(b));
    assert QuarterPoints(s) == (if (100 * w + f) % 25 == 0 then 25 else 0) by {
      AcceptedTotalCents(b, s);
    }
    QuarterOfCents(w, f);
    assert f % 25 == 0 <==> Cents(b) in {"00", "25", "50", "75"} by {
      QuarterCents(Cents(b));
    }
  }

  /** Rule 6 on a validated total: 5 points exactly when the amount is more
      than ten dollars. */
  lemma LargeTotalOnMoney(b: string, s: string)
    requires MoneyBody(b)
    requires s == b || s == b + "\n"
    ensures LargeTotalPoints(s) == 5 <==>
      DigitsValue(Dollars(b)) > 10 || (DigitsValue(Dollars(b)) == 10 && Cents(b) != "00")
  {
    var w, f := DigitsValue(Dollars(b)), DigitsValue(Cents(b));
    assert LargeTotalPoints(s) == (if 100 * w + f > 1000 then 5 else 0) && f < 100 by {
      AcceptedTotalCents(b, s);
    }
    assert f == 0 <==> Cents(b) == "00" by {
      TwoDigitsSpell(Cents(b), 0);
    }
  }

  /** The positions of a `\d{4}-\d{2}-\d{2}` date that hold digits. */
  lemma DateDigits(b: string)
    requires DateBody(b)
    ensures forall i :: 0 <= i < 10 && i != 4 && i != 7 ==> IsDigit(b[i])
  {
    forall i | 0 <= i < 10 && i != 4 && i != 7
      ensures IsDigit(b[i])
    {
      if i < 4 {
        assert b[i] == b[..4][i];
      } else if i < 7 {
        assert b[i] == b[5..7][i - 5];
      } else {
        assert b[i] == b[8..][i - 8];
      }
    }
  }

  /** The text after the last '-' of a validated date is its day, followed
      by the line feed when there is one. */
  lemma DateLastSegment(b: string, s: string)
    requires DateBody(b)
    requires s == b || s == b + "\n"
    ensures LastSegment(s, '-') == s[8..]
  {
    DateDigits(b);
    var r := LastSegment(s, '-');
    assert s[7] == '-' && s[8] == b[8] && s[9] == b[9];
  }

  /** Tens do not change parity. */
  lemma ParityOfTens(t: nat, u: nat)
    ensures (10 * t + u) % 2 == u % 2
  {
    assert 10 * t + u == 2 * (5 * t) + u;
  }

  /** A two-digit number is odd exactly when its last digit is. */
  lemma DayParity(day: string)
    requires |day| == 2 && AllDigits(day)
    ensures DigitsValue(day) % 2 == DigitValue(day[1]) % 2
  {
    TwoDigits(day);
    ParityOfTens(DigitValue(day[0]), DigitValue(day[1]));
  }

  /** A validated date, with or without the trailing line feed, is read by
      Rule 7 as the value of its two day digits. */
  lemma AcceptedDay(b: string, s: string)
    requires DateBody(b)
    requires s == b || s == b + "\n"
    ensures AllDigits(b[8..])
    ensures ParseInt(LastSegment(s, '-')) == Some(DigitsValue(b[8..]))
  {
    var day := b[8..];
    assert LastSegment(s, '-') == s[8..] by {
      DateLastSegment(b, s);
    }
    assert Strip(s[8..]) == day && AllDigits(day) && |day| == 2 by {
      DateDigits(b);
      assert s[8..] == day || s[8..] == day + "\n";
      StripUnpadded(day);
    }
    ParseIntOfDigits(s[8..], day);
  }

  /** Rule 7 on a validated date: 6 points exactly when the last digit of
      the day is odd. */
  lemma OddDayOnDate(b: string, s: string)
    requires DateBody(b)
    requires s == b || s == b + "\n"
    ensures OddDayPoints(s) == (if DigitValue(b[9]) % 2 == 1 then 6 else 0)
  {
    var v := DigitsValue(b[8..]);
    assert OddDayPoints(s) == (if v % 2 != 0 then 6 else 0) by {
      AcceptedDay(b, s);
    }
    assert v % 2 == DigitValue(b[9]) % 2 by {
      DayParity(b[8..]);
      assert b[8..][1] == b[9];
    }
  }

  /** Rule 8 on a time that matches `\d{2}:\d{2}` exactly: 10 points when
      the hour is "14" or "15" and the minute's first digit is at most 5. */
  lemma AfternoonOnTime(b: string)
    requires TimeBody(b)
    ensures AfternoonPoints(b) == 10 <==> b[0] == '1' && (b[1] == '4' || b[1] == '5') && b[3] <= '5'
  {
    var h := b[..2];
    var m := b[3..];
    assert IsDigit(b[0]) && IsDigit(b[1]) by {
      assert b[0] == h[0] && b[1] == h[1];
    }
    assert m[0] == b[3];
    TwoDigits(h);
    TwoDigits(m);
    assert ParseClock(b) == ClockFields(h, m);
    var hour := DigitsValue(h);
    if hour == 14 || hour == 15 {
      TwoDigitsSpell(h, hour);
    }
    if b[0] == '1' && (b[1] == '4' || b[1] == '5') {
      assert DigitValue(b[0]) == 1;
    }
  }

  /** A validated time followed by the line feed that `$` tolerates never
      earns Rule 8: `strptime` rejects the extra character. */
  lemma AfternoonRejectsLineFeed(b: string)
    requires TimeBody(b)
    ensures AfternoonPoints(b + "\n") == 0
  {
    var s := b + "\n";
    assert b[1] == b[..2][1] && s[1] == b[1] && s[2] == ':';
    assert ParseClock(s) == ClockFields(s[..2], s[3..]);
  }

  /** Every field of a validated receipt that Rules 2, 3, 5, 6 and 7 read
      parses, so none of those rules falls back to 0 for a parse failure. */
  lemma ValidatedFieldsParse(r: Receipt)
    requires WellFormed(r)
    ensures ParseDecimalCents(r.total.GetOr("0.00")).Some?
    ensures forall i :: 0 <= i < |r.items.entries| ==>
      ParseDecimalCents(r.items.entries[i].price.GetOr("0.00")).Some?
    ensures ParseInt(LastSegment(r.purchaseDate.GetOr(""), '-')).Some?
  {
    AcceptedMoneyParses(r.total.GetOr(""));
    forall i | 0 <= i < |r.items.entries|
      ensures ParseDecimalCents(r.items.entries[i].price.GetOr("0.00")).Some?
    {
      assert ItemOk(r.items.entries[i]);
      AcceptedMoneyParses(r.items.entries[i].price.GetOr(""));
    }
    var d := r.purchaseDate.GetOr("");
    var b := if DateBody(d) then d else Chomp(d);
    assert d == b || d == b + "\n";
    AcceptedDay(b, d);
  }

  /** Changing the retailer name changes the score only through Rule 1. */
  lemma RetailerOnlyAffectsRule1(r: Receipt, name: string)
    requires !r.items.NotList?
    ensures Score(r.(retailer := Some(name))) + AlnumCount(r.retailer.GetOr("")) == Score(r) + AlnumCount(name)
  {
  }

  /** A total of 12.00 earns Rules 2, 3 and 6. */
  lemma TwelveDollarTotal()
    ensures RoundDollarPoints("12.00") == 50
    ensures QuarterPoints("12.00") == 25
    ensures LargeTotalPoints("12.00") == 5
  {
    var b := "12.00";
    assert AllDigits(b[..2]) && AllDigits(b[3..]);
    assert Cents(b) == "00" && Dollars(b) == "12";
    RoundDollarOnMoney(b, b);
    QuarterOnMoney(b, b);
    TwoDigits(Dollars(b));
    LargeTotalOnMoney(b, b);
  }

  function SampleReceipt(): Receipt {
    Receipt(
      Some("Target"),
      Some("2023-01-01"),
      Some("14:30"),
      List([Item(Some("Pepsi 12 Pack"), Some("5.49")), Item(Some("Bread"), Some("3.99"))]),
      Some("9.48"))
  }

  /** The sample receipt's fields, each matching its pattern. */
  lemma SampleFieldsMatch()
    ensures RetailerBody("Target")
    ensures MoneyBody("9.48") && MoneyBody("5.49") && MoneyBody("3.99")
    ensures DateBody("2023-01-01")
    ensures TimeBody("14:30")
  {
    var total, price1, price2 := "9.48", "5.49", "3.99";
    assert AllDigits(total[..1]) && AllDigits(total[2..]);
    assert AllDigits(price1[..1]) && AllDigits(price1[2..]);
    assert AllDigits(price2[..1]) && AllDigits(price2[2..]);
    var date := "2023-01-01";
    assert AllDigits(date[..4]) && AllDigits(date[5..7]) && AllDigits(date[8..]);
    var time := "14:30";
    assert AllDigits(time[..2]) && AllDigits(time[3..]);
  }

  /** Both sample items have a non-empty description and a well-formed price. */
  lemma SampleItemsOk()
    ensures ItemOk(Item(Some("Pepsi 12 Pack"), Some("5.49")))
    ensures ItemOk(Item(Some("Bread"), Some("3.99")))
  {
    SampleFieldsMatch();
    TrimmedUnpadded(Item(Some("Pepsi 12 Pack"), Some("5.49")), "Pepsi 12 Pack");
    TrimmedUnpadded(Item(Some("Bread"), Some("3.99")), "Bread");
  }

  /** The sample receipt of the repository's test passes every check. */
  lemma SampleReceiptIsWellFormed()
    ensures WellFormed(SampleReceipt())
    ensures ValidateReceipt(SampleReceipt()) == (None, 200)
  {
    SampleFieldsMatch();
    SampleItemsOk();
    var r := SampleReceipt();
    assert r.items.entries[0] == Item(Some("Pepsi 12 Pack"), Some("5.49"));
    assert r.items.entries[1] == Item(Some("Bread"), Some("3.99"));
  }

  /** "Target" has six alphanumeric characters. */
  lemma SampleRetailerRule()
    ensures RetailerPoints("Target") == 6
  {
    assert AlnumCount("Target") == 6;
  }

  /** The sample total 9.48 earns none of Rules 2, 3 and 6. */
  lemma SampleTotalRules()
    ensures RoundDollarPoints("9.48") == 0
    ensures QuarterPoints("9.48") == 0
    ensures LargeTotalPoints("9.48") == 0
  {
    var total := "9.48";
    SampleFieldsMatch();
    assert Dollars(total) == "9" && Cents(total) == "48";
    TwoDigits("48");
    assert DigitsValue("9") == 9 by {
      assert "9"[..0] == [];
    }
    AcceptedTotalCents(total, total);
  }

  /** An item whose description has no surrounding whitespace keeps its
      length after trimming. */
  lemma TrimmedUnpadded(item: Item, d: string)
    requires item.shortDescription == Some(d)
    requires |d| > 0 && !IsSpace(d[0]) && !IsSpace(d[|d| - 1])
    ensures |TrimmedDescription(item)| == |d|
  {
    StripUnpadded(d);
  }

  /** Neither sample description has a length that is a multiple of 3:
      "Pepsi 12 Pack" has 13 characters and "Bread" has 5. */
  lemma SampleItemRules()
    ensures ItemPoints(Item(Some("Pepsi 12 Pack"), Some("5.49"))) == 0
    ensures ItemPoints(Item(Some("Bread"), Some("3.99"))) == 0
  {
    TrimmedUnpadded(Item(Some("Pepsi 12 Pack"), Some("5.49")), "Pepsi 12 Pack");
    TrimmedUnpadded(Item(Some("Bread"), Some("3.99")), "Bread");
  }

  /** Rule 5 gives the sample receipt nothing. */
  lemma SampleDescriptionRules()
    ensures DescriptionPoints(SampleReceipt().items.entries) == 0
  {
    SampleItemRules();
    var items := SampleReceipt().items.entries;
    assert items[0] == Item(Some("Pepsi 12 Pack"), Some("5.49"));
    assert items[1..][0] == Item(Some("Bread"), Some("3.99"));
    assert items[1..][1..] == [];
  }

  /** The sample date's day 01 is odd. */
  lemma SampleDateRule()
    ensures OddDayPoints("2023-01-01") == 6
  {
    SampleFieldsMatch();
    OddDayOnDate("2023-01-01", "2023-01-01");
  }

  /** The sample time 14:30 is in the afternoon window. */
  lemma SampleTimeRule()
    ensures AfternoonPoints("14:30") == 10
  {
    SampleFieldsMatch();
    AfternoonOnTime("14:30");
  }

  /** The sample receipt of the repository's test scores
      6 + 0 + 0 + 5 + 0 + 0 + 6 + 10 = 27 points. */
  lemma SampleReceiptScores27()
    ensures Score(SampleReceipt()) == 27
  {
    var r := SampleReceipt();
    assert r.retailer.GetOr("") == "Target";
    assert r.total.GetOr("0.00") == "9.48";
    assert r.purchaseDate.GetOr("") == "2023-01-01";
    assert r.purchaseTime.GetOr("") == "14:30";
    assert ItemList(r) == SampleReceipt().items.entries;
    assert |ItemList(r)| == 2;
    SampleRetailerRule();
    SampleTotalRules();
    SampleDescriptionRules();
    SampleDateRule();
    SampleTimeRule();
  }
}
