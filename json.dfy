/** JSON values as `JSON.parse` produces them, and files that hold them. */
module Json {
  import opened Wrappers

  /** A parsed JSON value. Numbers are restricted to integers. */
  datatype Json =
    | JNull
    | JBool(b: bool)
    | JNum(n: int)
    | JStr(s: string)
    | JArr(items: seq<Json>)
    | JObj(fields: map<string, Json>)
  {
    /** JavaScript truthiness of the value. */
    predicate Truthy() {
      match this
      case JNull => false
      case JBool(b) => b
      case JNum(n) => n != 0
      case JStr(s) => s != ""
      case _ => true
    }

    /** `value.key`, or `None` for a missing key or a value that is not an
        object. */
    function Get(key: string): Option<Json> {
      if JObj? && key in fields then Some(fields[key]) else None
    }

    /** `value.key` is truthy. */
    predicate Has(key: string) {
      Get(key).Some? && Get(key).value.Truthy()
    }
  }

  /** A file on disk as one of the stores sees it: absent, present but not
      a document of the expected shape, or a parsed document. */
  datatype File<T> = Missing | Malformed(text: string) | Stored(value: T) {
    /** The `try { JSON.parse(readFile(...)) } catch { return null }` read:
        a missing file and an unparseable one both read as `None`. */
    function Read(): Option<T> {
      if Stored? then Some(value) else None
    }
  }
}
