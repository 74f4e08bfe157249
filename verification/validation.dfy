/**
 The receipt validator: five field checks in a fixed order, then one check
 per item, stopping at the first failure.
 */
module Validation {
  import opened Wrappers
  import opened Text
  import opened Formats
  import opened Receipts

  /** Why a receipt was rejected: one case per check, in check order. */
  datatype Failure =
    | BadRetailer
    | BadTotal
    | BadDate
    | BadTime
    | NoItems
    | BadItem(description: string)

  /** The reason string the service reports for each failure. */
  function Message(f: Failure): string {
    match f
    case BadRetailer => "Invalid retailer name format"
    case BadTotal => "Invalid total amount format"
    case BadDate => "Invalid purchase date format, expected YYYY-MM-DD"
    case BadTime => "Invalid purchase time format, expected HH:MM"
    case NoItems => "Items must be a non-empty array"
    case BadItem(d) => "Invalid item description or price for item: " + d
  }

  predicate RetailerOk(r: Receipt) {
    IsRetailerName(r.retailer.GetOr(""))
  }

  predicate TotalOk(r: Receipt) {
    IsMoney(r.total.GetOr(""))
  }

  predicate DateOk(r: Receipt) {
    IsDate(r.purchaseDate.GetOr(""))
  }

  predicate TimeOk(r: Receipt) {
    IsTime(r.purchaseTime.GetOr(""))
  }

  predicate ScalarsOk(r: Receipt) {
    RetailerOk(r) && TotalOk(r) && DateOk(r) && TimeOk(r)
  }

  /** `items` is present, is a list, and has at least one entry. */
  predicate HasItems(r: Receipt) {
    r.items.List? && |r.items.entries| >= 1
  }

  /** An item's short description with surrounding whitespace removed. */
  function TrimmedDescription(item: Item): string {
    Strip(item.shortDescription.GetOr(""))
  }

  predicate ItemOk(item: Item) {
    |TrimmedDescription(item)| > 0 && IsMoney(item.price.GetOr(""))
  }

  /** Every check passes. */
  predicate WellFormed(r: Receipt) {
    && ScalarsOk(r)
    && HasItems(r)
    && forall i :: 0 <= i < |r.items.entries| ==> ItemOk(r.items.entries[i])
  }

  /** Item `i` is the first item that fails its check. */
  predicate FirstBad(items: seq<Item>, i: int) {
    && 0 <= i < |items|
    && !ItemOk(items[i])
    && forall j :: 0 <= j < i ==> ItemOk(items[j])
  }

  /** `f` is the failure of the first check, in check order, that `r` fails. */
  predicate IsFirstFailure(r: Receipt, f: Failure) {
    match f
    case BadRetailer => !RetailerOk(r)
    case BadTotal => RetailerOk(r) && !TotalOk(r)
    case BadDate => RetailerOk(r) && TotalOk(r) && !DateOk(r)
    case BadTime => RetailerOk(r) && TotalOk(r) && DateOk(r) && !TimeOk(r)
    case NoItems => ScalarsOk(r) && !HasItems(r)
    case BadItem(d) =>
      && ScalarsOk(r)
      && HasItems(r)
      && exists i :: 0 <= i < |r.items.entries| && FirstBad(r.items.entries, i) && d == TrimmedDescription(r.items.entries[i])
  }

  /** The position of the first item that fails its check, if any, scanning
      from position `from` on when every earlier item is known to pass. */
  function FirstBadItem(items: seq<Item>, from: nat): (k: Option<nat>)
    requires from <= |items|
    requires forall j :: 0 <= j < from ==> ItemOk(items[j])
    ensures k.Some? ==> FirstBad(items, k.value)
    ensures k.None? ==> forall i :: 0 <= i < |items| ==> ItemOk(items[i])
    decreases |items| - from
  {
    if from == |items| then None
    else if !ItemOk(items[from]) then Some(from)
    else FirstBadItem(items, from + 1)
  }

  /** The checks in order; None when all pass. */
  function Validate(r: Receipt): (v: Option<Failure>)
    ensures v.None? <==> WellFormed(r)
    ensures v.Some? ==> IsFirstFailure(r, v.value)
  {
    if !RetailerOk(r) then Some(BadRetailer)
    else if !TotalOk(r) then Some(BadTotal)
    else if !DateOk(r) then Some(BadDate)
    else if !TimeOk(r) then Some(BadTime)
    else if !HasItems(r) then Some(NoItems)
    else match FirstBadItem(r.items.entries, 0)
      case Some(i) => Some(BadItem(TrimmedDescription(r.items.entries[i])))
      case None => None
  }

  /** The validator's `(message, status)` result: `(None, 200)` when every
      check passes, otherwise the first failure's message with status 400. */
  function ValidateReceipt(r: Receipt): (res: (Option<string>, int))
    ensures res.1 == 200 || res.1 == 400
    ensures res.1 == 200 <==> WellFormed(r)
    ensures res.0.None? <==> res.1 == 200
    ensures res.1 == 400 ==> exists f :: IsFirstFailure(r, f) && res.0 == Some(Message(f))
  {
    match Validate(r)
    case None => (None, 200)
    case Some(f) => (Some(Message(f)), 400)
  }

  /** There is only one first failure, so the validator's report is determined. */
  lemma FirstFailureUnique(r: Receipt, f: Failure, g: Failure)
    requires IsFirstFailure(r, f) && IsFirstFailure(r, g)
    ensures f == g
  {
    if f.BadItem? && g.BadItem? {
      var items := r.items.entries;
      var i :| 0 <= i < |items| && FirstBad(items, i) && f.description == TrimmedDescription(items[i]);
      var j :| 0 <= j < |items| && FirstBad(items, j) && g.description == TrimmedDescription(items[j]);
    }
  }

  /** A rejected receipt is not well formed, and a well-formed one has no failure. */
  lemma FailureExcludesWellFormed(r: Receipt, f: Failure)
    requires IsFirstFailure(r, f)
    ensures !WellFormed(r)
  {
    if f.BadItem? {
      var i :| 0 <= i < |r.items.entries| && FirstBad(r.items.entries, i);
      assert !ItemOk(r.items.entries[i]);
    }
  }

  /** Different failures are reported with different messages. */
  lemma MessageInjective(f: Failure, g: Failure)
    ensures Message(f) == Message(g) ==> f == g
  {
    var prefix := "Invalid item description or price for item: ";
    if f.BadItem? && g.BadItem? {
      assert f.description == Message(f)[|prefix|..];
      assert g.description == Message(g)[|prefix|..];
    } else if f.BadItem? {
      assert Message(f)[8] == 'i';
    } else if g.BadItem? {
      assert Message(g)[8] == 'i';
    }
  }

  /** With well-formed scalar fields, a missing or empty item list is
      rejected with the item-list message. */
  lemma EmptyItemsRejected(r: Receipt)
    requires ScalarsOk(r)
    requires r.items.Missing? || r.items == List([])
    ensures ValidateReceipt(r) == (Some("Items must be a non-empty array"), 400)
  {
  }

  /** A retailer name that fails its pattern is reported first, whatever the
      other fields hold. */
  lemma RetailerCheckedFirst(r: Receipt)
    requires !IsRetailerName(r.retailer.GetOr(""))
    ensures ValidateReceipt(r) == (Some("Invalid retailer name format"), 400)
  {
  }
}
