/** The values a parsed CSV row holds, and the row itself as a JavaScript object. */
module Values {
  import opened Strings
  import opened Sequences

  datatype Option<+T> = None | Some(value: T)

  /** A field as the reader stores it: a number when the numeric parse succeeds, the raw
      string otherwise, and `undefined` when the line has no field at that position. */
  datatype Value = Num(n: real) | Text(s: string) | Undefined

  /** A row object: its own keys in insertion order, and what each key holds. */
  datatype Row = Row(keys: seq<string>, fields: map<string, Value>)

  const EmptyRow := Row([], map[])

  /** Each own key is listed once, and the key list and the map agree. */
  ghost predicate WellFormed(r: Row) {
    Distinct(r.keys) && forall k :: k in r.fields <==> k in r.keys
  }

  /** `row.hasOwnProperty(key)`. */
  predicate HasOwn(r: Row, key: string) {
    key in r.fields
  }

  /** `row[key]`: a key the row does not have reads as `undefined`. */
  function Get(r: Row, key: string): Value {
    if key in r.fields then r.fields[key] else Undefined
  }

  /** The one header name whose assignment creates no own key: `rowData["__proto__"] = v`
      reaches the setter every object inherits, which ignores a number, a string or
      `undefined`. */
  const ProtoKey := "__proto__"

  /** Whether assigning to `key` creates or updates an own key of the row. */
  predicate Storable(key: string) {
    key != ProtoKey
  }

  /** `rowData[key] = v`: an existing key keeps its place in the key order, a new key goes
      last, and an assignment to `__proto__` leaves the row as it was. */
  function Put(r: Row, key: string, v: Value): (r': Row)
    ensures WellFormed(r) ==> WellFormed(r')
    ensures Storable(key) ==> HasOwn(r', key) && Get(r', key) == v
    ensures !Storable(key) ==> r' == r
    ensures forall k :: k != key ==> HasOwn(r', k) == HasOwn(r, k) && Get(r', k) == Get(r, k)
    ensures Storable(key) && key in r.keys ==> r'.keys == r.keys
    ensures Storable(key) && key !in r.keys ==> r'.keys == r.keys + [key]
  {
    if !Storable(key) then r
    else if key in r.keys then Row(r.keys, r.fields[key := v])
    else Row(r.keys + [key], r.fields[key := v])
  }

  /** `v == null`, which for a field means `undefined`. */
  predicate IsNullish(v: Value) {
    v.Undefined?
  }

  /** JavaScript truthiness of a field (the model's numbers are never NaN). */
  predicate Truthy(v: Value) {
    match v
    case Num(n) => n != 0.0
    case Text(s) => s != ""
    case Undefined => false
  }

  /** The number a field becomes in `<=`, `>=` and `-`: None stands for NaN. A string that
      the numeric parse rejected converts to 0 only when it is blank. */
  function ToNumber(v: Value): Option<real> {
    match v
    case Num(n) => Some(n)
    case Text(s) => if AllWhitespace(s) then Some(0.0) else None
    case Undefined => None
  }
}
