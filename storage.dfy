/**
 * The two key-value stores the core talks to, and the JSON and Date
 * conversions it relies on.
 *
 * - `LocalStorage` is the browser's synchronous string store. A write can be
 *   refused (quota exceeded); the `fits` argument of `SetItem` says whether
 *   this one is.
 * - `DurableStore` is the asynchronous store of structured values behind the
 *   migration. Whether it accepts a write is decided by the backend, given as
 *   a function of the key and the value.
 * - `JSON.parse`/`JSON.stringify` and `Date` <-> ISO text are given as
 *   functions (`ListCodec`, `DateCodec`); their round-trip properties are
 *   predicates that the round-trip lemmas require.
 */
module Storage {
  import opened Base

  /** A JSON value. */
  datatype Json =
    | JNull
    | JBool(b: bool)
    | JNum(n: real)
    | JStr(s: string)
    | JArr(items: seq<Json>)
    | JObj(fields: map<string, Json>)

  /** JavaScript truthiness of a value read back from a store (`null` for a missing key). */
  predicate Truthy(v: Option<Json>) {
    match v
    case None => false
    case Some(j) =>
      match j
      case JNull => false
      case JBool(b) => b
      case JNum(n) => n != 0.0
      case JStr(s) => s != ""
      case JArr(_) => true
      case JObj(_) => true
  }

  /** `JSON.stringify` and `JSON.parse` restricted to arrays of one record type. */
  datatype ListCodec<!R(!new)> = ListCodec(stringify: seq<R> -> string, parse: string -> Option<seq<R>>)
  {
    /** Parsing what was written gives back the records; the text is never empty. */
    ghost predicate RoundTrips() {
      forall rs :: parse(stringify(rs)) == Some(rs) && stringify(rs) != ""
    }
  }

  type Timestamp = int

  /** `Date.prototype.toJSON` and `new Date(text)`. */
  datatype DateCodec = DateCodec(toIso: Timestamp -> string, dateOf: string -> Timestamp)
  {
    ghost predicate RoundTrips() {
      forall t :: dateOf(toIso(t)) == t
    }
  }

  /** The browser's `localStorage`. */
  class LocalStorage {
    var items: map<string, string>

    constructor (items: map<string, string>)
      ensures this.items == items
    {
      this.items := items;
    }

    method GetItem(key: string) returns (value: Option<string>)
      ensures value == Lookup(items, key)
    {
      value := Lookup(items, key);
    }

    /** `setItem`; when the value does not fit it throws and nothing is stored. */
    method SetItem(key: string, value: string, fits: bool) returns (ok: bool)
      modifies this
      ensures ok == fits
      ensures items == if fits then old(items)[key := value] else old(items)
    {
      ok := fits;
      if ok {
        items := items[key := value];
      }
    }
  }

  /** The asynchronous store of structured values. */
  class DurableStore {
    var items: map<string, Json>

    constructor (items: map<string, Json>)
      ensures this.items == items
    {
      this.items := items;
    }

    /** `getItem`: `null` for a missing key, never an error. */
    method GetItem(key: string) returns (value: Option<Json>)
      ensures value == Lookup(items, key)
    {
      value := Lookup(items, key);
    }

    /** `setItem`: the promise rejects, and nothing is stored, unless the backend accepts. */
    method SetItem(key: string, value: Json, accept: (string, Json) -> bool) returns (ok: bool)
      modifies this
      ensures ok == accept(key, value)
      ensures items == if ok then old(items)[key := value] else old(items)
    {
      ok := accept(key, value);
      if ok {
        items := items[key := value];
      }
    }
  }
}
