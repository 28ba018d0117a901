/**
 The in-memory domain objects the service assembles from documents. Every
 field holds whatever the document held: a field missing from the document
 reads as `nil` (`Null`), as in the Ruby objects.
 */
module Domain {
  import opened Wrappers
  import opened Documents

  /** A store owned by one vendor, with its Stripe credentials and fees.
      `id` is absent until the store has been persisted. */
  datatype Store = Store(
    id: Option<string>,
    name: Value,
    defaultCurrency: Value,
    stripePublishableKey: Value,
    stripeUserId: Value,
    stripeRefreshToken: Value,
    stripeAccessToken: Value,
    txnFeeBase: Value,
    txnFeePercent: Value)

  /** One line of a transaction. */
  datatype Item = Item(name: Value, cost: Value, priceUnit: Value, quantity: Value)

  /** A completed sale; `id` is the Stripe charge id. */
  datatype Transaction = Transaction(
    id: string,
    amount: Value,
    taxes: Value,
    date: Value,
    storeId: Value,
    items: seq<Item>)
}
