/** Values that cross the boundary between the page and the REST backend:
    the JSON records the backend stores, what `response.json()` yields, and
    the outcome of one `fetch` call. The network itself is not modelled: a
    caller supplies the outcome. */
module Wire {

  datatype Option<T> = None | Some(value: T)

  /** A field of a record as client code reads it: a JSON string, `undefined`
      when the key is missing (or was set to `undefined`), or any other JSON
      value (a number, a boolean, `null`, a nested object or array), which the
      client only copies and compares and which is kept opaque as its
      serialised text. */
  datatype Value = Undefined | Str(text: string) | Other(json: string)

  /** A JSON object as it is held in component state. */
  type Item = map<string, Value>

  /** `item[key]` in JavaScript: a missing key reads as `undefined`. */
  function Field(item: Item, key: string): Value
  {
    if key in item then item[key] else Undefined
  }

  /** `{ ...item, id: item._id }`: every field of the fetched object is kept
      and `id` is overwritten with the server-assigned `_id` (which is
      `undefined` when the object has none). */
  function WithId(item: Item): (r: Item)
    ensures r.Keys == item.Keys + {"id"}
    ensures Field(r, "id") == Field(item, "_id")
    ensures forall k :: k in item && k != "id" ==> r[k] == item[k]
  {
    item["id" := Field(item, "_id")]
  }

  /** An element of a JSON array the backend returns. */
  datatype Element =
    | Entry(fields: Item)         // an object
    | NullEntry                   // `null`: reading its `_id` throws
    | ScalarEntry                 // a number or boolean: it spreads to `{}`

  /** What `await response.json()` produces. */
  datatype Reply =
    | Unparseable                 // `.json()` rejects: the body is not JSON
    | Null                        // the body is `null`
    | Scalar                      // a number or boolean
    | Object(fields: Item)        // a JSON object
    | Array(elems: seq<Element>)  // a JSON array

  /** A response `fetch` resolved with; its status is carried but the
      client code never looks at it. */
  datatype Response = Response(status: int, body: Reply)

  /** The outcome of one `fetch`: rejected (network failure) or resolved. */
  datatype Fetch = Rejected | Resolved(response: Response)
}
