/**
 The document datastore the service talks to, with the client replaced by a
 value: a map from document path to the fields of the document. A path is
 the alternating list of collection and document names, so `stores/<id>` is
 `["stores", id]` and `stores/<id>/backend/stripe` is
 `["stores", id, "backend", "stripe"]`. A path is in the map exactly when
 the document exists.
 */
module Documents {

  /** A field value. The service never computes on numbers, decimals or
      timestamps, it only copies them, so those are opaque tokens. */
  datatype Value =
    | Null
    | Text(s: string)
    | Opaque(token: int)
    | Array(elems: seq<Value>)
    | Record(fields: map<string, Value>)

  type Fields = map<string, Value>

  type Path = seq<string>

  type Db = map<Path, Fields>

  /** Reading `data[key]` from a document: the stored value, or `nil` when
      the document has no such field. */
  function Field(fields: Fields, key: string): Value
  {
    if key in fields then fields[key] else Null
  }

  /** The path of document `id` in top-level collection `col`. */
  function DocPath(col: string, id: string): Path
  {
    [col, id]
  }

  /** The path of document `id` in sub-collection `col` of document `parent`. */
  function SubDocPath(parent: Path, col: string, id: string): Path
  {
    parent + [col, id]
  }

  /** A `set` write: the document at `p` is created or replaced, and holds
      exactly `fields` afterwards. */
  function SetDoc(db: Db, p: Path, fields: Fields): (r: Db)
    ensures r.Keys == db.Keys + {p}
    ensures r[p] == fields
    ensures forall q :: q in db && q != p ==> r[q] == db[q]
  {
    db[p := fields]
  }

  /** An `update` write of one field on an existing document: that field is
      replaced (or added), every other field of the document is kept. */
  function UpdateField(db: Db, p: Path, key: string, v: Value): (r: Db)
    requires p in db
    ensures r.Keys == db.Keys
    ensures r[p].Keys == db[p].Keys + {key}
    ensures r[p][key] == v
    ensures forall k :: k in db[p] && k != key ==> r[p][k] == db[p][k]
    ensures forall q :: q in db && q != p ==> r[q] == db[q]
  {
    db[p := db[p][key := v]]
  }
}
