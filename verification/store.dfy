/**
 The in-memory table of processed receipts, keyed by a generated id, and
 the two operations the service offers over it: submit a receipt (validate,
 score, store) and look up a receipt's points. The id generator is a
 parameter: the caller supplies the fresh id.
 */
module Store {
  import opened Wrappers
  import opened Receipts
  import opened Validation
  import opened Scoring

  datatype Entry = Entry(receipt: Receipt, points: nat)

  type Table = map<string, Entry>

  /** The outcome of submitting a receipt: its rejection reason, or the
      id it was stored under and the table after storing it. */
  datatype Submission =
    | Rejected(message: string)
    | Accepted(id: string, table: Table)

  /** The points stored under `id`, or None when nothing is. */
  function Lookup(table: Table, id: string): (p: Option<nat>)
    ensures p.Some? <==> id in table
    ensures p.Some? ==> p.value == table[id].points
  {
    if id in table then Some(table[id].points) else None
  }

  /** Validate the receipt; when it passes, score it and store it under
      `freshId`; otherwise report the validator's message. */
  function Submit(table: Table, r: Receipt, freshId: string): (s: Submission)
    ensures s.Rejected? <==> !WellFormed(r)
    ensures s.Rejected? ==> exists f :: IsFirstFailure(r, f) && s.message == Message(f)
    ensures s.Accepted? ==> s.id == freshId && s.table.Keys == table.Keys + {freshId}
  {
    var verdict := ValidateReceipt(r);
    if verdict.1 != 200 then Rejected(verdict.0.value)
    else Accepted(freshId, table[freshId := Entry(r, Score(r))])
  }

  /** A well-formed receipt is accepted, and looking up the id the
      submission returned gives the points the engine computes for it. */
  lemma SubmitThenLookup(table: Table, r: Receipt, freshId: string)
    ensures WellFormed(r) ==>
      && Submit(table, r, freshId).Accepted?
      && Lookup(Submit(table, r, freshId).table, freshId) == Some(Score(r))
  {
  }

  /** An accepted submission leaves every other id's entry as it was. */
  lemma SubmitKeepsOtherEntries(table: Table, r: Receipt, freshId: string, id: string)
    requires id != freshId
    ensures Submit(table, r, freshId).Accepted? ==>
      Lookup(Submit(table, r, freshId).table, id) == Lookup(table, id)
  {
  }
}
