/**
 A submitted receipt as the service sees it: a JSON object whose keys may be
 missing. Each string-valued key is an Option; the `items` key may be
 missing, a list, or some other JSON value.
 */
module Receipts {
  import opened Wrappers

  datatype Item = Item(shortDescription: Option<string>, price: Option<string>)

  datatype ItemsField =
    | Missing
    | List(entries: seq<Item>)
    | NotList

  datatype Receipt = Receipt(
    retailer: Option<string>,
    purchaseDate: Option<string>,
    purchaseTime: Option<string>,
    items: ItemsField,
    total: Option<string>)
}
