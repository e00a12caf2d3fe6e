/**
 * Firestore documents as the route handlers see them: a document's data is a
 * map from field name to value, a field that is absent reads as `undefined`.
 * Request bodies are the same kind of map.  Object spreads and destructuring
 * become map unions and key removal.
 */
module Documents {
  import opened Wrappers

  /** A JSON field value.  Every value the backend stores or compares is a string
      or `null`; numbers, booleans and nested objects in request bodies are not modelled. */
  datatype Value = Str(s: string) | Null

  type Doc = map<string, Value>

  /** A document of a collection that is read in document order. */
  datatype Stored = Stored(id: string, data: Doc)

  /** What a handler sends back: a success status with its payload, or an
      error status with the `error` text of the JSON body. */
  datatype Reply<+T> = Ok(code: int, data: T) | Err(code: int, error: string)

  /** JavaScript truthiness of a field: present, not null, not the empty string. */
  predicate Truthy(d: Doc, key: string)
  {
    key in d && d[key].Str? && d[key].s != ""
  }

  /** `d[key] || null` */
  function OrNull(d: Doc, key: string): (v: Value)
    ensures v == Null || (Truthy(d, key) && v == d[key])
    ensures Truthy(d, key) ==> v == d[key]
  {
    if Truthy(d, key) then d[key] else Null
  }

  /** The string a truthy field holds. */
  function TextOf(d: Doc, key: string): string
    requires Truthy(d, key)
  {
    d[key].s
  }

  /** `(d[key] || '')` for a string field, as used as a sort key. */
  function KeyOf(d: Doc, key: string): (r: string)
    ensures Truthy(d, key) ==> r == d[key].s
    ensures !Truthy(d, key) ==> r == ""
  {
    if key in d && d[key].Str? then d[key].s else ""
  }

  /** `{ id: docId, ...data }`: the spread comes second, so a field named `id`
      in the data would win over the document id. */
  function WithId(id: string, data: Doc): (r: Doc)
    ensures r.Keys == data.Keys + {"id"}
    ensures "id" !in data ==> r["id"] == Str(id)
    ensures forall k :: k in data ==> r[k] == data[k]
  {
    map["id" := Str(id)] + data
  }

  /** Firestore's `where(field, '==', value)` test on one document. */
  predicate FieldIs(d: Doc, key: string, v: Value)
  {
    key in d && d[key] == v
  }
}
