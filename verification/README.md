# Clerc backend: persistence layer and token issuance, modelled in Dafny

This project models two parts of the Clerc payments backend. The first is
`FirestoreService`, the only code that reads and writes the document
datastore. The second is `create_refresh_token`, which issues a session
token (a JWT) only to a known customer or vendor.

The datastore client is replaced by a value. `Documents.Db` maps a document
path to the fields of that document. A path lists collection and document
names in turn, so `stores/<id>/backend/stripe` is
`["stores", id, "backend", "stripe"]`. A document exists exactly when its
path is in the map. Field values (`Documents.Value`) are Ruby's dynamic
values: `nil`, strings, opaque tokens for numbers, decimals and dates,
arrays and maps. Reading a field a document lacks gives `nil`, as
`data[:field]` does.

Each write is a function from the old datastore to the new one. Each read
is a function of the datastore. The modules are:

- `Wrappers`: `Option`, used for the `nil` results.
- `Documents`: values, paths, the datastore, and the `set` and `update` writes.
- `Domain`: `Store`, `Item` and `Transaction` as the service assembles them.
- `FirestoreService`: the collection and field names, `save_store` (as its
  three writes and their composition), `get_store`, `get_txn`,
  `valid_user?` and `get_secret`.
- `FirestoreProperties`: lemmas that relate several operations.
- `SecurityEndpoints`: `create_refresh_token` and its lemmas.

Decisions the source leaves open:

- The datastore chooses the id of a new store. Here it is the argument
  `newId`, with the precondition that no store has it yet.
- The vendor update in `save_store` is an `update` on an existing document,
  so the vendor document must exist. What the library does when it is
  missing cannot be seen from the source, so the model requires it. The
  update replaces the `stores` field and keeps every other vendor field.
- `get_txn` can raise in Ruby. The stored `items` may be missing, may not
  be iterable, or may hold an element that is not a map. The model returns
  `Malformed` in those cases. A stored map is iterated as key/value pairs,
  so an empty map yields no items and a non-empty one raises.
- `get_secret` returns `Some(key field)` when the secret document exists and
  `None` otherwise. A document without a `key` field gives `Some(Null)`,
  which is the same `nil` to a Ruby caller.
- `create_refresh_token` takes the current time as the argument `now`. A
  missing or null `user_id` is denied: the datastore client turns a `nil`
  document id into a fresh random id, which names no stored user.
- The token lifetime is 60 seconds, as the code and its own comment say
  (src/endpoints/security_endpoints.rb:9, 17). The route comment in
  src/server.rb:54 says 10 minutes. The model follows the code.
- The Ruby classes `Store` and `Transaction` (src/model/) are not part of
  this model. Their fields are taken from the constructor calls in
  src/service/firestore_service.rb.

## Model

| member | source | states |
|---|---|---|
| `Documents.SetDoc` | src/service/firestore_service.rb:46 | a `set` write creates or replaces exactly one document, which then holds exactly the given fields; every other document is unchanged |
| `Documents.UpdateField` | src/service/firestore_service.rb:69-73 | an `update` of one field on an existing document replaces or adds that field only; the other fields and documents are kept |
| `FirestoreService.WriteStoreMain` | src/service/firestore_service.rb:37-48 | step 1 of `save_store` adds the store document holding exactly `name`, `default_currency` and `parent_vendor_id` = the vendor id, and touches nothing else |
| `FirestoreService.WriteStripeCredentials` | src/service/firestore_service.rb:50-61 | step 2 writes `stores/<id>/backend/stripe` holding exactly the four Stripe strings and the two fee fields, copied verbatim from the input store |
| `FirestoreService.LinkVendor` | src/service/firestore_service.rb:66-73 | step 3 sets the vendor's `stores` field to the one-element list `[id]`, overwriting any earlier list; the vendor's other fields are kept |
| `FirestoreService.SaveStore` | src/service/firestore_service.rb:35-79 | the returned id was not a store before; afterwards the store and Stripe documents hold exactly the input's fields, the vendor's `stores` is `[id]`, and no other document or vendor field changes |
| `FirestoreService.AssembleStore` | src/service/firestore_service.rb:119-121 | the rebuilt store carries the requested id, and each of its eight attributes is the stored field of the same name (`nil` when absent) |
| `FirestoreService.GetStore` | src/service/firestore_service.rb:86-122 | a store is returned iff both the main document and the Stripe document exist, never partly filled; its id is the requested id, name and currency come from the main document, and the four Stripe fields and two fee fields come from the Stripe document |
| `FirestoreService.ItemOf` | src/service/firestore_service.rb:148-154 | each item attribute (name, cost, price unit, quantity) is the stored item field of the same name, whatever order the constructor takes them in |
| `FirestoreService.DecodeItems` | src/service/firestore_service.rb:142-155 | the items decode iff every stored element is a map; the result has the same length and order as the stored array, each item copied field by field |
| `FirestoreService.ItemsOf` | src/service/firestore_service.rb:142-146 | iterating the stored `items` succeeds iff it is an array of maps or an empty map; an array gives the items pointwise, same length and order; an empty map gives no items |
| `FirestoreService.GetTxn` | src/service/firestore_service.rb:128-163 | `nil` iff the transaction document is absent; raises iff the stored items cannot be iterated; otherwise the transaction carries the requested id, the stored amount, taxes, date and store id, and the stored items in order (none for an empty map) |
| `FirestoreService.ValidUser` | src/service/firestore_service.rb:167-182 | true iff the id names a customer document or a vendor document |
| `FirestoreService.GetSecret` | src/service/firestore_service.rb:187-199 | the secret's `key` field iff `secrets/<name>` exists, `nil` otherwise |
| `FirestoreProperties.SaveThenGetStore` | src/service/firestore_service.rb:35-122 | loading the id `save_store` returned gives the input store with that id, with the same name, currency, Stripe fields and fee fields |
| `FirestoreProperties.AssembleStoreInvertsSavedData` | src/service/firestore_service.rb:38-61 | reading back the store and Stripe fields `save_store` writes rebuilds the input store, with the new id |
| `FirestoreProperties.SavedStoreIsLinked` | src/service/firestore_service.rb:64-78 | after a save the vendor's store list names exactly the returned id, and that id loads a store |
| `FirestoreProperties.PartialSaveHidesStore` | src/service/firestore_service.rb:101-116 | if a save stops after its first write, with or without the vendor link, the new store loads as `nil` although its main document exists |
| `FirestoreProperties.LastWriterWins` | src/service/firestore_service.rb:66-73 | after two saves for one vendor, the vendor lists only the second store; the first store still loads but is no longer listed |
| `FirestoreProperties.SaveStoreKeepsOtherStores` | src/service/firestore_service.rb:35-79 | a save does not change what any other store id loads to |
| `FirestoreProperties.SaveStoreKeepsOtherReads` | src/service/firestore_service.rb:35-79 | a save does not change `valid_user?`, `get_secret` or `get_txn` for any id |
| `FirestoreProperties.DecodeItemsAppend` | src/service/firestore_service.rb:145-155 | decoding a concatenation of stored items gives the concatenation of the decoded parts, so items keep their stored order |
| `FirestoreProperties.ItemsRoundTrip` | src/service/firestore_service.rb:146-155 | items stored as maps, in order, decode to the same items in the same order |
| `FirestoreProperties.GetTxnItemsRoundTrip` | src/service/firestore_service.rb:132-158 | a stored transaction whose items were written in order loads with exactly those items |
| `SecurityEndpoints.RequestedUser` | src/endpoints/security_endpoints.rb:13 | the request names a user iff its `user_id` member is a string, and the named user is that string |
| `SecurityEndpoints.CreateRefreshToken` | src/endpoints/security_endpoints.rb:11-22 | a token is issued iff the requested id passes `valid_user?`; it is built from that id, the given secret and expiry `now + 60`; otherwise the reply is the 401 denial |
| `SecurityEndpoints.TokenIffStoredUser` | src/endpoints/security_endpoints.rb:13-20 | for a string user id, a token is issued iff a customer or vendor document has that id; otherwise the reply is 401 "Access Denied - Invalid User ID" |
| `SecurityEndpoints.TokenExpiresAfterOneMinute` | src/endpoints/security_endpoints.rb:17 | an issued token expires exactly 60 seconds after `now` |
| `SecurityEndpoints.RefreshTokenUnaffectedBySaveStore` | src/endpoints/security_endpoints.rb:11-22 | saving a store never changes whether a token is issued, nor which token |

## Left out

- The datastore client, the network and the generation of new ids: the
  datastore is a map and the new store id is an argument.
- Failing writes: the writes of `save_store` are not atomic. Each step is
  modelled as its own function, so an interrupted save can be described,
  but no exception path or recovery is modelled.
- `update` on a missing vendor document: it is excluded by a precondition
  of `SaveStore` and `LinkVendor`.
- Document-id syntax: ids are opaque strings, and every id names one
  top-level document. The client splits a document id at `/` and raises
  `ArgumentError` when the resulting path has an odd number of segments,
  which happens for the empty id and for an id with an odd number of `/`
  (`"a/b"`). An id with an even, non-zero number of `/` (`"a/b/c"`) names a
  nested document (`customers/a/b/c`). None of these cases is modelled.
- SecurityEndpoints.CreateRefreshToken: the source raises, and sends no
  reply, for a `user_id` of `""` or one with an odd number of `/`. For a
  `user_id` with an even, non-zero number of `/`, the source looks up the
  nested documents the id spells out, while the model looks up the literal
  id as one document name. On both kinds of input the model therefore
  replies with the 401 denial, or issues a token if a document under that
  literal id is in the map.
- SecurityEndpoints.RequestedUser: a `user_id` that is a JSON number,
  array, object or `true` is treated as naming no user, so
  `CreateRefreshToken` denies it. The client would look up its string form,
  and that conversion is not modelled. A JSON `false` behaves like `null`:
  the client replaces it with a fresh random id, which names no stored
  user, so denying it matches the source.
- `create_jwt`, `return_error` and the JSON rendering of the reply are
  opaque constructors (`Jwt`, `ErrorReply`). Signing and verifying tokens,
  including `JsonWebToken` in src/util.rb, belong to a library.
- `log_info`: it only writes to standard output.
- src/server.rb: routes, CORS, client and Stripe start-up, and the loading
  and printing of secrets at start-up.
- The charge and vendor-onboarding endpoints, and `check_jwt`: their source
  files are not part of this model.
- Amounts, taxes, fees and dates: they are only copied, never computed on,
  so they are opaque values.
