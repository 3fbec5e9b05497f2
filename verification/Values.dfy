/** Values as JavaScript sees them at the wire boundary, including those no JSON text produces. */
module Values {
  import opened Numbers
  import opened Options
  import opened Unicode

  datatype Value =
    | JsNull
    | JsBool(b: bool)
    | JsNumber(n: Number)
    | JsNonFinite
    | JsText(text: Text)
    | JsArray(items: Values)
    | JsObject(fields: Fields)
    | JsForeign // undefined, functions, instances of other classes

  /** The elements of an array, which may have holes: places that count in its length and hold nothing. */
  datatype Values = NoValues | More(head: Value, tail: Values) | Hole(tail: Values)

  datatype Fields = NoFields | Field(key: Text, value: Value, rest: Fields)

  /** `fields[key]`, when the key is an own property. */
  function Own(fields: Fields, key: Text): (v: Option<Value>)
    ensures v.Some? ==> (fields decreases to v.value)
  {
    match fields
    case NoFields => None
    case Field(k, v, rest) => if k == key then Some(v) else Own(rest, key)
  }

  function Length(items: Values): nat {
    match items
    case NoValues => 0
    case More(_, tail) => 1 + Length(tail)
    case Hole(tail) => 1 + Length(tail)
  }

  function Width(fields: Fields): nat {
    match fields
    case NoFields => 0
    case Field(_, _, rest) => 1 + Width(rest)
  }
}
