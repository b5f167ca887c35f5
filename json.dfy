/**
 * Decoded JSON documents, as `json.loads` hands them to Python code, and the
 * outcome of reading a JSON file.
 */
module Json {
  import opened Wrappers
  import opened PyDict

  /** JSON objects keep their keys in document order (a Python dict). */
  datatype Json =
    | JNull
    | JBool(b: bool)
    | JInt(i: int)
    | JNum(r: real)
    | JStr(s: string)
    | JList(items: seq<Json>)
    | JObj(fields: Dict<Json>)

  /**
   * Reading and decoding a JSON file: it is absent, it could not be read or
   * decoded (`OSError`, `JSONDecodeError`), or it holds a document.
   */
  datatype JsonFile = Missing | Unreadable | Parsed(doc: Json)

  /** Python truthiness of a decoded value, as used by `x or default`. */
  predicate Truthy(j: Json) {
    match j
    case JNull => false
    case JBool(b) => b
    case JInt(i) => i != 0
    case JNum(r) => r != 0.0
    case JStr(s) => s != ""
    case JList(items) => items != []
    case JObj(fields) => fields != []
  }

  /** `obj.get(key)` on a JSON object: None when the key is absent. */
  function Field(fields: Dict<Json>, key: string): Option<Json> {
    Get(fields, key)
  }

  /** `x or default` with a Json `x` that may be absent. */
  function OrElse(x: Option<Json>, default: Json): Json {
    if x.Some? && Truthy(x.value) then x.value else default
  }
}
