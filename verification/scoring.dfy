/**
 The points engine: eight independent rules, each reading one part of the
 receipt, summed. A rule whose field does not parse contributes 0 instead
 of failing. The model's score is defined for every receipt whose `items`
 value is a list or absent; the source can still raise on a price too large
 for a `float`, which the model does not represent.

 Money is read as integer cents, so the source's floating-point tests
 become exact: "is a whole number" is `c % 100 == 0`, "is a multiple of
 0.25" is `c % 25 == 0`, "exceeds 10.00" is `c > 1000`, and
 `int(price * 0.2 + 0.9999)` is `(c + 499) / 500`.
 */
module Scoring {
  import opened Wrappers
  import opened Text
  import opened Numbers
  import opened Receipts
  import opened Validation

  /** The number of alphanumeric characters in `s`. */
  function AlnumCount(s: string): (n: nat)
    ensures n <= |s|
    ensures n == |s| <==> forall i :: 0 <= i < |s| ==> IsAlnum(s[i])
    ensures n == 0 <==> forall i :: 0 <= i < |s| ==> !IsAlnum(s[i])
  {
    if |s| == 0 then 0
    else (if IsAlnum(s[0]) then 1 else 0) + AlnumCount(s[1..])
  }

  /** Rule 1: one point per alphanumeric character of the retailer name. */
  function RetailerPoints(retailer: string): (p: nat)
    ensures p <= |retailer|
  {
    AlnumCount(retailer)
  }

  /** Rule 2: 50 points when the total is a whole number of dollars. */
  function RoundDollarPoints(total: string): (p: nat)
    ensures p == 0 || p == 50
    ensures ParseDecimalCents(total).None? ==> p == 0
  {
    match ParseDecimalCents(total)
    case Some(c) => if c % 100 == 0 then 50 else 0
    case None => 0
  }

  /** Rule 3: 25 points when the total is a multiple of 0.25. */
  function QuarterPoints(total: string): (p: nat)
    ensures p == 0 || p == 25
    ensures ParseDecimalCents(total).None? ==> p == 0
  {
    match ParseDecimalCents(total)
    case Some(c) => if c % 25 == 0 then 25 else 0
    case None => 0
  }

  /** Rule 4: 5 points for every two items. */
  function PairPoints(items: seq<Item>): (p: nat)
    ensures p % 5 == 0
    ensures 2 * (p / 5) <= |items| <= 2 * (p / 5) + 1
  {
    (|items| / 2) * 5
  }

  /** Rule 5 for one item: when the trimmed description's length is a
      multiple of 3, the price times 0.2 rounded up; otherwise nothing. */
  function ItemPoints(item: Item): (p: nat)
    ensures |TrimmedDescription(item)| % 3 != 0 ==> p == 0
    ensures ParseDecimalCents(item.price.GetOr("0.00")).None? ==> p == 0
    ensures |TrimmedDescription(item)| % 3 == 0 && ParseDecimalCents(item.price.GetOr("0.00")).Some? ==>
      var c := ParseDecimalCents(item.price.GetOr("0.00")).value;
      500 * (p - 1) < c <= 500 * p
  {
    if |TrimmedDescription(item)| % 3 == 0 then
      match ParseDecimalCents(item.price.GetOr("0.00"))
      case Some(c) => (c + 499) / 500
      case None => 0
    else 0
  }

  /** Rule 5: the sum of ItemPoints over the items. */
  function DescriptionPoints(items: seq<Item>): (p: nat)
    ensures forall i :: 0 <= i < |items| ==> ItemPoints(items[i]) <= p
    ensures (forall i :: 0 <= i < |items| ==> ItemPoints(items[i]) == 0) ==> p == 0
  {
    if |items| == 0 then 0
    else
      var rest := DescriptionPoints(items[1..]);
      assert forall i :: 1 <= i < |items| ==> items[i] == items[1..][i - 1];
      ItemPoints(items[0]) + rest
  }

  /** Rule 6: 5 points when the total exceeds 10.00. */
  function LargeTotalPoints(total: string): (p: nat)
    ensures p == 0 || p == 5
    ensures ParseDecimalCents(total).None? ==> p == 0
  {
    match ParseDecimalCents(total)
    case Some(c) => if c > 1000 then 5 else 0
    case None => 0
  }

  /** Rule 7: 6 points when the text after the date's last '-' is an odd integer. */
  function OddDayPoints(date: string): (p: nat)
    ensures p == 0 || p == 6
    ensures ParseInt(LastSegment(date, '-')).None? ==> p == 0
  {
    match ParseInt(LastSegment(date, '-'))
    case Some(d) => if d % 2 != 0 then 6 else 0
    case None => 0
  }

  /** Rule 8: 10 points when the time reads as `%H:%M` with an hour from 14 up to but not including 16. */
  function AfternoonPoints(time: string): (p: nat)
    ensures p == 0 || p == 10
    ensures ParseClock(time).None? ==> p == 0
  {
    match ParseClock(time)
    case Some(t) => if 14 <= t.hour < 16 then 10 else 0
    case None => 0
  }

  /** `receipt.get("items", [])` for a receipt whose items value is a list or absent. */
  function ItemList(r: Receipt): seq<Item>
    requires !r.items.NotList?
  {
    match r.items
    case Missing => []
    case List(l) => l
  }

  /** The receipt's points: the sum of the eight rules, each reading its
      field with the source's default for a missing key. */
  function Score(r: Receipt): (p: nat)
    requires !r.items.NotList?
    ensures var uncapped := AlnumCount(r.retailer.GetOr("")) + PairPoints(ItemList(r)) + DescriptionPoints(ItemList(r));
      uncapped <= p <= uncapped + 96
  {
    var total := r.total.GetOr("0.00");
    RetailerPoints(r.retailer.GetOr(""))
      + RoundDollarPoints(total)
      + QuarterPoints(total)
      + PairPoints(ItemList(r))
      + DescriptionPoints(ItemList(r))
      + LargeTotalPoints(total)
      + OddDayPoints(r.purchaseDate.GetOr(""))
      + AfternoonPoints(r.purchaseTime.GetOr(""))
  }
}
