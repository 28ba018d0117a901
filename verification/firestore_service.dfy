/**
 The persistence layer: every read and write the backend makes against the
 document datastore. Each write is a function from the datastore before to
 the datastore after; each read is a function of the datastore.
 */
module FirestoreService {
  import opened Wrappers
  import opened Documents
  import opened Domain

  // Collection, document and property names of the datastore layout.
  const StoresCollection := "stores"
  const VendorsCollection := "vendors"
  const CustomersCollection := "customers"
  const TransactionsCollection := "transactions"
  const VendorStoresProp := "stores"
  const StoreBackendCollection := "backend"
  const StoreStripeDoc := "stripe"

  // The secrets collection and the names of the secrets it holds.
  const SecretsCollection := "secrets"
  const JwtKeyDoc := "JWT_KEY"
  const StripeKeyDoc := "STRIPE_API_SECRET"
  const MailgunKeyDoc := "MAILGUN"

  // Field names of store documents.
  const NameField := "name"
  const CurrencyField := "default_currency"
  const ParentVendorField := "parent_vendor_id"
  const PublishableKeyField := "stripe_publishable_key"
  const StripeUserIdField := "stripe_user_id"
  const RefreshTokenField := "stripe_refresh_token"
  const AccessTokenField := "stripe_access_token"
  const FeeBaseField := "txn_fee_base"
  const FeePercentField := "txn_fee_percent"

  // Field names of transaction documents and of their items.
  const AmountField := "amount"
  const TaxesField := "taxes"
  const DateField := "date"
  const StoreIdField := "store_id"
  const ItemsField := "items"
  const CostField := "cost"
  const QuantityField := "quantity"
  const PriceUnitField := "price_unit"

  // Field name of secret documents.
  const KeyField := "key"

  function StorePath(id: string): Path { DocPath(StoresCollection, id) }

  /** `stores/<id>/backend/stripe`, the Stripe credential sub-document. */
  function StripePath(id: string): Path
  {
    SubDocPath(StorePath(id), StoreBackendCollection, StoreStripeDoc)
  }

  function VendorPath(id: string): Path { DocPath(VendorsCollection, id) }

  function CustomerPath(id: string): Path { DocPath(CustomersCollection, id) }

  function TxnPath(id: string): Path { DocPath(TransactionsCollection, id) }

  function SecretPath(name: string): Path { DocPath(SecretsCollection, name) }

  // ---------------------------------------------------------------------
  // save_store

  /** The documents a `save_store` of store `storeId` for vendor `vendorId`
      writes to. */
  function SaveStoreFootprint(storeId: string, vendorId: string): set<Path>
  {
    {StorePath(storeId), StripePath(storeId), VendorPath(vendorId)}
  }

  /** The fields `save_store` writes to the store document. */
  function StoreMainData(s: Store, vendorId: string): Fields
  {
    map[NameField := s.name,
        CurrencyField := s.defaultCurrency,
        ParentVendorField := Text(vendorId)]
  }

  /** The fields `save_store` writes to the Stripe credential sub-document. */
  function StripeData(s: Store): Fields
  {
    map[PublishableKeyField := s.stripePublishableKey,
        StripeUserIdField := s.stripeUserId,
        RefreshTokenField := s.stripeRefreshToken,
        AccessTokenField := s.stripeAccessToken,
        FeeBaseField := s.txnFeeBase,
        FeePercentField := s.txnFeePercent]
  }

  /** Step 1: a fresh store document holding the name, the currency and the
      owning vendor. */
  function WriteStoreMain(db: Db, s: Store, vendorId: string, storeId: string): (r: Db)
    ensures r.Keys == db.Keys + {StorePath(storeId)}
    ensures r[StorePath(storeId)].Keys == {NameField, CurrencyField, ParentVendorField}
    ensures r[StorePath(storeId)][NameField] == s.name
    ensures r[StorePath(storeId)][CurrencyField] == s.defaultCurrency
    ensures r[StorePath(storeId)][ParentVendorField] == Text(vendorId)
    ensures forall p :: p in db && p != StorePath(storeId) ==> r[p] == db[p]
  {
    SetDoc(db, StorePath(storeId), StoreMainData(s, vendorId))
  }

  /** Step 2: the Stripe credential sub-document, the four Stripe strings and
      the two fee fields copied from the store. */
  function WriteStripeCredentials(db: Db, s: Store, storeId: string): (r: Db)
    ensures r.Keys == db.Keys + {StripePath(storeId)}
    ensures r[StripePath(storeId)].Keys ==
      {PublishableKeyField, StripeUserIdField, RefreshTokenField,
       AccessTokenField, FeeBaseField, FeePercentField}
    ensures r[StripePath(storeId)][PublishableKeyField] == s.stripePublishableKey
    ensures r[StripePath(storeId)][StripeUserIdField] == s.stripeUserId
    ensures r[StripePath(storeId)][RefreshTokenField] == s.stripeRefreshToken
    ensures r[StripePath(storeId)][AccessTokenField] == s.stripeAccessToken
    ensures r[StripePath(storeId)][FeeBaseField] == s.txnFeeBase
    ensures r[StripePath(storeId)][FeePercentField] == s.txnFeePercent
    ensures forall p :: p in db && p != StripePath(storeId) ==> r[p] == db[p]
  {
    SetDoc(db, StripePath(storeId), StripeData(s))
  }

  /** Step 3: the vendor's store list becomes the one-element list holding
      the new store; an earlier list is overwritten, not extended. */
  function LinkVendor(db: Db, vendorId: string, storeId: string): (r: Db)
    requires VendorPath(vendorId) in db
    ensures r.Keys == db.Keys
    ensures r[VendorPath(vendorId)].Keys == db[VendorPath(vendorId)].Keys + {VendorStoresProp}
    ensures r[VendorPath(vendorId)][VendorStoresProp] == Array([Text(storeId)])
    ensures forall k :: k in db[VendorPath(vendorId)] && k != VendorStoresProp ==>
      r[VendorPath(vendorId)][k] == db[VendorPath(vendorId)][k]
    ensures forall p :: p in db && p != VendorPath(vendorId) ==> r[p] == db[p]
  {
    UpdateField(db, VendorPath(vendorId), VendorStoresProp, Array([Text(storeId)]))
  }

  /** What `save_store` leaves behind: the datastore after its three writes,
      and the id it returns. */
  datatype Saved = Saved(db: Db, storeId: string)

  /** `save_store(store, vendor_id)`. The datastore picks `newId`, an id no
      store has yet; `vendor_id` must name an existing vendor, because the
      final step updates that vendor's document. */
  function SaveStore(db: Db, s: Store, vendorId: string, newId: string): (r: Saved)
    requires StorePath(newId) !in db
    requires VendorPath(vendorId) in db
    ensures r.storeId == newId && StorePath(r.storeId) !in db
    ensures r.db.Keys == db.Keys + {StorePath(newId), StripePath(newId)}
    // the store document holds exactly name, currency and owning vendor
    ensures r.db[StorePath(newId)] ==
      map[NameField := s.name, CurrencyField := s.defaultCurrency,
          ParentVendorField := Text(vendorId)]
    // the Stripe sub-document holds exactly the credentials and fees
    ensures r.db[StripePath(newId)] ==
      map[PublishableKeyField := s.stripePublishableKey,
          StripeUserIdField := s.stripeUserId,
          RefreshTokenField := s.stripeRefreshToken,
          AccessTokenField := s.stripeAccessToken,
          FeeBaseField := s.txnFeeBase,
          FeePercentField := s.txnFeePercent]
    // the vendor's store list is exactly [newId], its other fields are kept
    ensures Field(r.db[VendorPath(vendorId)], VendorStoresProp) == Array([Text(newId)])
    ensures r.db[VendorPath(vendorId)].Keys == db[VendorPath(vendorId)].Keys + {VendorStoresProp}
    ensures forall k :: k in db[VendorPath(vendorId)] && k != VendorStoresProp ==>
      r.db[VendorPath(vendorId)][k] == db[VendorPath(vendorId)][k]
    // no other document changes
    ensures forall p :: p in db && p !in SaveStoreFootprint(newId, vendorId) ==> r.db[p] == db[p]
  {
    var db1 := WriteStoreMain(db, s, vendorId, newId);
    var db2 := WriteStripeCredentials(db1, s, newId);
    var db3 := LinkVendor(db2, vendorId, newId);
    Saved(db3, newId)
  }

  // ---------------------------------------------------------------------
  // get_store

  /** The store assembled from its main document and its Stripe document:
      each attribute is read from the field of the same name. */
  function AssembleStore(id: string, main: Fields, stripe: Fields): (r: Store)
    ensures r.id == Some(id)
    ensures r.name == Field(main, NameField)
    ensures r.defaultCurrency == Field(main, CurrencyField)
    ensures r.stripePublishableKey == Field(stripe, PublishableKeyField)
    ensures r.stripeUserId == Field(stripe, StripeUserIdField)
    ensures r.stripeRefreshToken == Field(stripe, RefreshTokenField)
    ensures r.stripeAccessToken == Field(stripe, AccessTokenField)
    ensures r.txnFeeBase == Field(stripe, FeeBaseField)
    ensures r.txnFeePercent == Field(stripe, FeePercentField)
  {
    Store(Some(id), Field(main, NameField), Field(main, CurrencyField),
          Field(stripe, PublishableKeyField), Field(stripe, StripeUserIdField),
          Field(stripe, RefreshTokenField), Field(stripe, AccessTokenField),
          Field(stripe, FeeBaseField), Field(stripe, FeePercentField))
  }

  /** `get_store(id)`: a store is found only when both its main document and
      its Stripe document exist; otherwise the result is `nil`, never a
      partly filled store. */
  function GetStore(db: Db, id: string): (r: Option<Store>)
    ensures r.Some? <==> StorePath(id) in db && StripePath(id) in db
    ensures r.Some? ==> r.value.id == Some(id)
    ensures r.Some? ==> r.value.name == Field(db[StorePath(id)], NameField)
    ensures r.Some? ==> r.value.defaultCurrency == Field(db[StorePath(id)], CurrencyField)
    ensures r.Some? ==> r.value.stripePublishableKey == Field(db[StripePath(id)], PublishableKeyField)
    ensures r.Some? ==> r.value.stripeUserId == Field(db[StripePath(id)], StripeUserIdField)
    ensures r.Some? ==> r.value.stripeRefreshToken == Field(db[StripePath(id)], RefreshTokenField)
    ensures r.Some? ==> r.value.stripeAccessToken == Field(db[StripePath(id)], AccessTokenField)
    ensures r.Some? ==> r.value.txnFeeBase == Field(db[StripePath(id)], FeeBaseField)
    ensures r.Some? ==> r.value.txnFeePercent == Field(db[StripePath(id)], FeePercentField)
  {
    if StorePath(id) !in db then None
    else if StripePath(id) !in db then None
    else Some(AssembleStore(id, db[StorePath(id)], db[StripePath(id)]))
  }

  // ---------------------------------------------------------------------
  // get_txn

  /** An item assembled from one stored item map: each attribute is read
      from the field of the same name (the constructor takes price unit
      before quantity). */
  function ItemOf(fields: Fields): (r: Item)
    ensures r.name == Field(fields, NameField)
    ensures r.cost == Field(fields, CostField)
    ensures r.priceUnit == Field(fields, PriceUnitField)
    ensures r.quantity == Field(fields, QuantityField)
  {
    Item(Field(fields, NameField), Field(fields, CostField),
         Field(fields, PriceUnitField), Field(fields, QuantityField))
  }

  /** The items of a stored `items` array, in order. An element that is not
      a map makes the lookup raise (`None`). */
  function DecodeItems(elems: seq<Value>): (r: Option<seq<Item>>)
    ensures r.Some? <==> forall i :: 0 <= i < |elems| ==> elems[i].Record?
    ensures r.Some? ==> |r.value| == |elems|
    ensures r.Some? ==> forall i :: 0 <= i < |elems| ==> r.value[i] == ItemOf(elems[i].fields)
    decreases |elems|
  {
    if |elems| == 0 then Some([])
    else
      match elems[0]
      case Record(f) =>
        var rest := DecodeItems(elems[1..]);
        if rest.Some? then Some([ItemOf(f)] + rest.value) else None
      case _ => None
  }

  /** The stored `items` value is iterable as a list of item maps: an array
      of maps, or a map with no entries. */
  predicate IterableItems(v: Value)
  {
    || (v.Array? && forall i :: 0 <= i < |v.elems| ==> v.elems[i].Record?)
    || (v.Record? && |v.fields| == 0)
  }

  /** Iterating the stored `items` value. An array is walked in order; a map
      is iterated as key/value pairs, which is harmless only when it is
      empty; anything else (`nil` included) has no iteration and raises. */
  function ItemsOf(v: Value): (r: Option<seq<Item>>)
    ensures r.Some? <==> IterableItems(v)
    ensures r.Some? && v.Array? ==>
      && |r.value| == |v.elems|
      && forall i :: 0 <= i < |v.elems| ==> r.value[i] == ItemOf(v.elems[i].fields)
    ensures r.Some? && v.Record? ==> r.value == []
  {
    match v
    case Array(elems) => DecodeItems(elems)
    case Record(m) => if |m| == 0 then Some([]) else None
    case _ => None
  }

  /** Outcome of `get_txn`: `nil` for a missing document, the transaction,
      or the error raised when the stored items cannot be iterated. */
  datatype TxnLookup = NotFound | Found(txn: Transaction) | Malformed

  /** `get_txn(id)`. */
  function GetTxn(db: Db, id: string): (r: TxnLookup)
    ensures r.NotFound? <==> TxnPath(id) !in db
    ensures r.Found? ==> r.txn.id == id
    ensures r.Found? ==> r.txn.amount == Field(db[TxnPath(id)], AmountField)
    ensures r.Found? ==> r.txn.taxes == Field(db[TxnPath(id)], TaxesField)
    ensures r.Found? ==> r.txn.date == Field(db[TxnPath(id)], DateField)
    ensures r.Found? ==> r.txn.storeId == Field(db[TxnPath(id)], StoreIdField)
    ensures r.Found? && Field(db[TxnPath(id)], ItemsField).Array? ==>
      var stored := Field(db[TxnPath(id)], ItemsField).elems;
      && |r.txn.items| == |stored|
      && forall i :: 0 <= i < |stored| ==> stored[i].Record? && r.txn.items[i] == ItemOf(stored[i].fields)
    ensures r.Found? && Field(db[TxnPath(id)], ItemsField).Record? ==> r.txn.items == []
    ensures r.Malformed? <==>
      TxnPath(id) in db && !IterableItems(Field(db[TxnPath(id)], ItemsField))
  {
    if TxnPath(id) !in db then NotFound
    else
      var d := db[TxnPath(id)];
      match ItemsOf(Field(d, ItemsField))
      case None => Malformed
      case Some(items) =>
        Found(Transaction(id, Field(d, AmountField), Field(d, TaxesField),
                          Field(d, DateField), Field(d, StoreIdField), items))
  }

  // ---------------------------------------------------------------------
  // valid_user? and get_secret

  /** `valid_user?(user_id)`: customers are looked up first, then vendors. */
  function ValidUser(db: Db, userId: string): (r: bool)
    ensures r <==> CustomerPath(userId) in db || VendorPath(userId) in db
  {
    if CustomerPath(userId) in db then true
    else if VendorPath(userId) in db then true
    else false
  }

  /** `get_secret(name)`: the `key` field of `secrets/<name>`, or `nil`
      (`None`) when that document does not exist. */
  function GetSecret(db: Db, name: string): (r: Option<Value>)
    ensures r.Some? <==> SecretPath(name) in db
    ensures r.Some? ==> r.value == Field(db[SecretPath(name)], KeyField)
  {
    if SecretPath(name) in db then Some(Field(db[SecretPath(name)], KeyField)) else None
  }
}
