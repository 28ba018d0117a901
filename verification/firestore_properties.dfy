/**
 Properties that relate several persistence operations: the save/load round
 trip, what a partial save leaves visible, last-writer-wins on the vendor's
 store list, the order of transaction items, and which reads a save cannot
 disturb.
 */
module FirestoreProperties {
  import opened Wrappers
  import opened Documents
  import opened Domain
  import opened FirestoreService

  /** Distinct store ids name distinct store and Stripe documents. */
  lemma PathsInjective(a: string, b: string)
    ensures StorePath(a) == StorePath(b) <==> a == b
    ensures StripePath(a) == StripePath(b) <==> a == b
  {
    if StorePath(a) == StorePath(b) {
      assert StorePath(a)[1] == a && StorePath(b)[1] == b;
    }
    if StripePath(a) == StripePath(b) {
      assert StripePath(a)[1] == a && StripePath(b)[1] == b;
    }
  }

  /** Loading the store just saved gives back the input store, now carrying
      the id `save_store` returned. */
  lemma SaveThenGetStore(db: Db, s: Store, vendorId: string, newId: string)
    requires StorePath(newId) !in db
    requires VendorPath(vendorId) in db
    ensures GetStore(SaveStore(db, s, vendorId, newId).db, SaveStore(db, s, vendorId, newId).storeId)
            == Some(s.(id := Some(newId)))
  {
  }

  /** Reading back the fields `save_store` writes rebuilds the store it was
      given, whatever id that store carried before. */
  lemma AssembleStoreInvertsSavedData(id: string, s: Store, vendorId: string)
    ensures AssembleStore(id, StoreMainData(s, vendorId), StripeData(s)) == s.(id := Some(id))
  {
  }

  /** After the save, the vendor's store list names exactly the new store,
      and that id resolves to a stored store. */
  lemma SavedStoreIsLinked(db: Db, s: Store, vendorId: string, newId: string)
    requires StorePath(newId) !in db
    requires VendorPath(vendorId) in db
    ensures var r := SaveStore(db, s, vendorId, newId);
      && Field(r.db[VendorPath(vendorId)], VendorStoresProp) == Array([Text(r.storeId)])
      && GetStore(r.db, r.storeId).Some?
  {
  }

  /** A save interrupted after its first write (no Stripe document, whether
      or not the vendor link was written) leaves the store invisible. */
  lemma PartialSaveHidesStore(db: Db, s: Store, vendorId: string, newId: string)
    requires StorePath(newId) !in db && StripePath(newId) !in db
    requires VendorPath(vendorId) in db
    ensures StorePath(newId) in WriteStoreMain(db, s, vendorId, newId)
    ensures GetStore(WriteStoreMain(db, s, vendorId, newId), newId) == None
    ensures GetStore(LinkVendor(WriteStoreMain(db, s, vendorId, newId), vendorId, newId), newId) == None
  {
  }

  /** Two saves for the same vendor: the second overwrites the vendor's
      store list, so the first store still exists but is no longer listed. */
  lemma LastWriterWins(db: Db, s1: Store, s2: Store, vendorId: string, id1: string, id2: string)
    requires StorePath(id1) !in db && StorePath(id2) !in db && id1 != id2
    requires VendorPath(vendorId) in db
    ensures var db1 := SaveStore(db, s1, vendorId, id1).db;
      StorePath(id2) !in db1 && VendorPath(vendorId) in db1
    ensures var db2 := SaveStore(SaveStore(db, s1, vendorId, id1).db, s2, vendorId, id2).db;
      && Field(db2[VendorPath(vendorId)], VendorStoresProp) == Array([Text(id2)])
      && GetStore(db2, id1) == Some(s1.(id := Some(id1)))
      && GetStore(db2, id2) == Some(s2.(id := Some(id2)))
  {
    var db1 := SaveStore(db, s1, vendorId, id1).db;
    PathsInjective(id1, id2);
    assert StorePath(id2) !in db1;
    SaveThenGetStore(db, s1, vendorId, id1);
    SaveThenGetStore(db1, s2, vendorId, id2);
    SaveStoreKeepsOtherStores(db1, s2, vendorId, id2, id1);
  }

  /** A save does not change what any other store id loads to. */
  lemma SaveStoreKeepsOtherStores(db: Db, s: Store, vendorId: string, newId: string, other: string)
    requires StorePath(newId) !in db
    requires VendorPath(vendorId) in db
    requires other != newId
    ensures GetStore(SaveStore(db, s, vendorId, newId).db, other) == GetStore(db, other)
  {
    PathsInjective(other, newId);
    assert StorePath(other) !in SaveStoreFootprint(newId, vendorId);
    assert StripePath(other) !in SaveStoreFootprint(newId, vendorId);
  }

  /** A save touches no customer, secret or transaction document, and
      creates or removes no vendor, so identity checks, secrets and
      transactions read the same before and after it. */
  lemma SaveStoreKeepsOtherReads(db: Db, s: Store, vendorId: string, newId: string, key: string)
    requires StorePath(newId) !in db
    requires VendorPath(vendorId) in db
    ensures ValidUser(SaveStore(db, s, vendorId, newId).db, key) == ValidUser(db, key)
    ensures GetSecret(SaveStore(db, s, vendorId, newId).db, key) == GetSecret(db, key)
    ensures GetTxn(SaveStore(db, s, vendorId, newId).db, key) == GetTxn(db, key)
  {
  }

  /** Decoding a concatenation of stored items is the concatenation of the
      decoded parts: items keep their stored order. */
  lemma DecodeItemsAppend(a: seq<Value>, b: seq<Value>)
    ensures DecodeItems(a + b) ==
      if DecodeItems(a).Some? && DecodeItems(b).Some?
      then Some(DecodeItems(a).value + DecodeItems(b).value)
      else None
  {
    var ab := a + b;
    if DecodeItems(a).Some? && DecodeItems(b).Some? {
      var x, y := DecodeItems(a).value, DecodeItems(b).value;
      forall i | 0 <= i < |ab|
        ensures ab[i].Record? && (x + y)[i] == ItemOf(ab[i].fields)
      {
        if i < |a| {
          assert ab[i] == a[i];
        } else {
          assert ab[i] == b[i - |a|];
        }
      }
      assert DecodeItems(ab).Some?;
      assert DecodeItems(ab).value == x + y;
    } else if DecodeItems(a).None? {
      var i :| 0 <= i < |a| && !a[i].Record?;
      assert ab[i] == a[i];
    } else {
      var i :| 0 <= i < |b| && !b[i].Record?;
      assert ab[|a| + i] == b[i];
    }
  }

  /** The stored map of one item, as an item written by a client looks. */
  function ItemRecord(it: Item): Value
  {
    Record(map[NameField := it.name, CostField := it.cost,
               PriceUnitField := it.priceUnit, QuantityField := it.quantity])
  }

  function EncodeItems(items: seq<Item>): seq<Value>
  {
    if |items| == 0 then [] else [ItemRecord(items[0])] + EncodeItems(items[1..])
  }

  /** Items stored as maps in order are read back as the same items in the
      same order. */
  lemma {:induction false} ItemsRoundTrip(items: seq<Item>)
    ensures DecodeItems(EncodeItems(items)) == Some(items)
    decreases |items|
  {
    if |items| > 0 {
      ItemsRoundTrip(items[1..]);
      DecodeItemsAppend([ItemRecord(items[0])], EncodeItems(items[1..]));
      assert ItemOf(ItemRecord(items[0]).fields) == items[0];
      assert [ItemRecord(items[0])][1..] == [];
      assert items == [items[0]] + items[1..];
    }
  }

  /** A stored transaction whose items were written in order reads back
      with exactly those items, in that order. */
  lemma GetTxnItemsRoundTrip(db: Db, id: string, items: seq<Item>)
    requires TxnPath(id) in db
    requires Field(db[TxnPath(id)], ItemsField) == Array(EncodeItems(items))
    ensures GetTxn(db, id).Found?
    ensures GetTxn(db, id).txn.items == items
  {
    ItemsRoundTrip(items);
  }
}
