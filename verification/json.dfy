/** JSON values as a request handler sees them after the body has been parsed,
    and the two JavaScript tests the Node backend applies to them. */
module Json {

  /** A field of a parsed request body. `Undefined` is what destructuring
      yields for a key the body does not carry. The contents of arrays and
      objects never matter to a handler, so they are left abstract. */
  datatype Value =
    | Undefined
    | Null
    | Bool(b: bool)
    | Num(n: real)
    | Str(s: string)
    | Arr
    | Obj

  /** JavaScript truthiness (`!!v`): only undefined, null, false, 0 and the
      empty string are falsy; every array and object is truthy. JSON has no
      NaN, so every number other than zero is truthy. */
  predicate Truthy(v: Value) {
    match v
    case Undefined => false
    case Null => false
    case Bool(b) => b
    case Num(n) => n != 0.0
    case Str(s) => |s| > 0
    case Arr => true
    case Obj => true
  }

  /** JavaScript loose equality with null (`v == null`): holds of null and
      undefined only, so `0`, `false` and `""` are not "null". */
  predicate LooselyNull(v: Value) {
    v.Undefined? || v.Null?
  }

  /** The four fields a POI request body is destructured into. */
  datatype PoiBody = PoiBody(name: Value, description: Value, lat: Value, lng: Value)
}
