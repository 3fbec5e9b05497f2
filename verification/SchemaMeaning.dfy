/**
 What a schema of the restricted vocabulary accepts on the wire.

 `Meaning` is undecided (`None`) where a reference cannot be followed within the fuel, or where the schema
 leaves the vocabulary. Keywords whose JSON type is wrong constrain nothing; length, bound and member keywords
 qualify the declared `type`.
 */
module SchemaMeaning {
  import opened Options
  import opened Json
  import opened Numbers
  import opened Unicode
  import opened Values
  import opened Formats

  const DEFAULT_LENGTH: nat := 1_048_576
  const DEFAULT_ITEMS: nat := 1_000_000
  const MAX_SAFE: int := 9_007_199_254_740_991

  /** `as_u64` of a keyword, or its default. */
  function CountOr(o: Members, name: string, default: nat): nat {
    match Get(o, name)
    case Some(Int(n)) => if 0 <= n < 0x1_0000_0000_0000_0000 then n else default
    case _ => default
  }

  function WordOf(o: Members, name: string): Option<string> {
    match Get(o, name)
    case Some(Str(s)) => Some(s)
    case _ => None
  }

  datatype Kind = Untyped | StringKind | IntegerKind | NumberKind | BooleanKind | NullKind | ArrayKind | ObjectKind
      | OtherKind

  function KindOf(o: Members): Kind {
    match WordOf(o, "type")
    case None => Untyped
    case Some(kind) =>
      if kind == "string" then StringKind
      else if kind == "integer" then IntegerKind
      else if kind == "number" then NumberKind
      else if kind == "boolean" then BooleanKind
      else if kind == "null" then NullKind
      else if kind == "array" then ArrayKind
      else if kind == "object" then ObjectKind
      else OtherKind
  }

  datatype Format = Unformatted | UuidFormat | PathFormat | DeltaFormat | OtherFormat

  function FormatOf(o: Members): Format {
    match WordOf(o, "format")
    case None => Unformatted
    case Some(format) =>
      if format == "uuid" then UuidFormat
      else if format == "scenario-change-path" then PathFormat
      else if format == "signed-u32-delta" then DeltaFormat
      else OtherFormat
  }

  function PropertiesOf(o: Members): (m: Members)
    ensures m.NoMembers? || (o decreases to m)
  {
    match Get(o, "properties")
    case Some(Obj(m)) => m
    case _ => NoMembers
  }

  function RequiredOf(o: Members): Items {
    match Get(o, "required")
    case Some(Arr(items)) => items
    case _ => NoItems
  }

  /** JSON equality of a constant and a wire value; numbers are compared as reals. */
  predicate SameJson(c: Json, v: Value) {
    match c
    case Null => v.JsNull?
    case Bool(b) => v == JsBool(b)
    case Int(n) => v.JsNumber? && v.n == n as real
    case Float(r, _) => v == JsNumber(r)
    case Str(s) => v == JsText(Encode(s))
    case Arr(items) => v.JsArray? && SameItems(items, v.items)
    case Obj(m) => v.JsObject? && SameMembers(m, v.fields)
  }

  predicate SameItems(items: Items, vs: Values) {
    match items
    case NoItems => vs.NoValues?
    case Item(head, tail) => vs.More? && SameJson(head, vs.head) && SameItems(tail, vs.tail)
  }

  predicate SameMembers(m: Members, fields: Fields) {
    match m
    case NoMembers => fields.NoFields?
    case Member(n, v, rest) =>
      && Own(fields, Encode(n)).Some? && SameJson(v, Own(fields, Encode(n)).value)
      && SameMembers(rest, Without(fields, Encode(n)))
  }

  function Without(fields: Fields, key: Text): Fields {
    match fields
    case NoFields => NoFields
    case Field(k, v, rest) => if k == key then rest else Field(k, v, Without(rest, key))
  }

  /** `v === c`: an array or object literal is a new identity and equals nothing, an integer literal is rounded. */
  predicate Identical(c: Json, v: Value) {
    match c
    case Int(n) => v.JsNumber? && v.n == Nearest(n) as real
    case Arr(_) => false
    case Obj(_) => false
    case _ => SameJson(c, v)
  }

  predicate FormatOk(o: Members, t: Text, csv: bool) {
    match FormatOf(o)
    case UuidFormat => IsUuid(t, csv)
    case PathFormat => IsChangePath(t)
    case DeltaFormat => IsDelta(t)
    case _ => true
  }

  /** Patterns are anchored literal prefixes. */
  predicate PatternOk(o: Members, t: Text) {
    match WordOf(o, "pattern")
    case Some(p) => p != "" ==> Encode(p[1..]) <= t
    case None => true
  }

  predicate TextOk(o: Members, t: Text, csv: bool) {
    && Points(t).Some?
    && CountOr(o, "minLength", 0) <= |Points(t).value| <= CountOr(o, "maxLength", DEFAULT_LENGTH)
    && FormatOk(o, t, csv)
    && PatternOk(o, t)
  }

  predicate SafeInteger(r: real) {
    r == r.Floor as real && -MAX_SAFE <= r.Floor <= MAX_SAFE
  }

  predicate IntegerOk(o: Members, r: real) {
    && SafeInteger(r)
    && (match Get(o, "minimum") case Some(Int(k)) => k <= r.Floor case _ => true)
    && (match Get(o, "maximum") case Some(Int(k)) => r.Floor <= k case _ => true)
  }

  /** Every required name is an own property. */
  predicate RequiredOk(required: Items, fields: Fields) {
    required.Item? ==>
      && (required.head.Str? ==> Own(fields, Encode(required.head.text)).Some?)
      && RequiredOk(required.tail, fields)
  }

  /** The declared schema of an own property, found by its key. */
  function PropertyFor(properties: Members, key: Text): (s: Option<Json>)
    ensures s.Some? ==> (properties decreases to s.value)
  {
    match properties
    case NoMembers => None
    case Member(n, child, rest) => if Encode(n) == key then Some(child) else PropertyFor(rest, key)
  }

  /**
   How constants are compared, as JSON or as JavaScript's `===` does, and whether raw UUID spellings of imported rows
   are allowed.
   */
  datatype Reading = AsJson(csv: bool) | AsWire(csv: bool)

  function Meaning(defs: Defs, s: Json, v: Value, fuel: nat, how: Reading): Option<bool>
    decreases fuel, s
  {
    if !s.Obj? then None
    else match Get(s.members, "$ref")
      case Some(reference) =>
        if fuel == 0 || RefName(reference).None? || RefName(reference).value !in defs then None
        else Meaning(defs, defs[RefName(reference).value], v, fuel - 1, how)
      case None => NodeMeaning(defs, s.members, v, fuel, how)
  }

  function NodeMeaning(defs: Defs, o: Members, v: Value, fuel: nat, how: Reading): Option<bool>
    decreases fuel, o, 4
  {
    Both(Some(ConstOk(o, v, how)), Both(UnionMeaning(defs, o, v, fuel, how), TypeMeaning(defs, o, v, fuel, how)))
  }

  predicate ConstOk(o: Members, v: Value, how: Reading) {
    match Get(o, "const")
    case Some(c) => if how.AsJson? then SameJson(c, v) else Identical(c, v)
    case None => true
  }

  /** `oneOf` means exactly one. */
  function UnionMeaning(defs: Defs, o: Members, v: Value, fuel: nat, how: Reading): Option<bool>
    decreases fuel, o, 3
  {
    match Get(o, "oneOf")
    case Some(Arr(options)) =>
      (match Matching(defs, options, v, fuel, how)
       case Some(n) => Some(n == 1)
       case None => None)
    case _ => Some(true)
  }

  /** How many branches accept the value. */
  function Matching(defs: Defs, options: Items, v: Value, fuel: nat, how: Reading): Option<nat>
    decreases fuel, options
  {
    match options
    case NoItems => Some(0)
    case Item(head, tail) =>
      var first, others := Meaning(defs, head, v, fuel, how), Matching(defs, tail, v, fuel, how);
      if first.Some? && others.Some? then Some(others.value + if first.value then 1 else 0) else None
  }

  function TypeMeaning(defs: Defs, o: Members, v: Value, fuel: nat, how: Reading): Option<bool>
    decreases fuel, o, 3
  {
    match KindOf(o)
    case Untyped => Some(true)
    case StringKind => Some(v.JsText? && TextOk(o, v.text, how.csv))
    case IntegerKind => Some(v.JsNumber? && IntegerOk(o, v.n))
    case BooleanKind => Some(v.JsBool?)
    case NullKind => Some(v.JsNull?)
    case ArrayKind => ArrayMeaning(defs, o, v, fuel, how)
    case ObjectKind => ObjectMeaning(defs, o, v, fuel, how)
    case _ => None
  }

  function ObjectMeaning(defs: Defs, o: Members, v: Value, fuel: nat, how: Reading): Option<bool>
    decreases fuel, o, 2
  {
    if !v.JsObject? then Some(false)
    else Both(Some(RequiredOk(RequiredOf(o), v.fields)), FieldsMeaning(defs, o, v.fields, v.fields, fuel, how))
  }

  function ArrayMeaning(defs: Defs, o: Members, v: Value, fuel: nat, how: Reading): Option<bool>
    decreases fuel, o, 2
  {
    match Get(o, "items")
    case None => None
    case Some(each) =>
      if !v.JsArray? then Some(false)
      else Both(Some(CountOr(o, "minItems", 0) <= Length(v.items) <= CountOr(o, "maxItems", DEFAULT_ITEMS)),
                ItemsMeaning(defs, o, each, v.items, fuel, how))
  }

  function ItemsMeaning(defs: Defs, o: Members, each: Json, items: Values, fuel: nat, how: Reading): Option<bool>
    requires o decreases to each
    decreases fuel, o, 1, items
  {
    match items
    case NoValues => Some(true)
    case More(head, tail) => Both(Meaning(defs, each, head, fuel, how), ItemsMeaning(defs, o, each, tail, fuel, how))
    case Hole(tail) => ItemsMeaning(defs, o, each, tail, fuel, how)
  }

  /** Every own property satisfies its declared schema or the one for additional members. */
  function FieldsMeaning(defs: Defs, o: Members, keys: Fields, fields: Fields, fuel: nat, how: Reading): Option<bool>
    decreases fuel, o, 1, keys
  {
    match keys
    case NoFields => Some(true)
    case Field(k, _, rest) =>
      Both(FieldMeaning(defs, o, k, fields, fuel, how), FieldsMeaning(defs, o, rest, fields, fuel, how))
  }

  function FieldMeaning(defs: Defs, o: Members, key: Text, fields: Fields, fuel: nat, how: Reading): Option<bool>
    decreases fuel, o, 0
  {
    match Own(fields, key)
    case None => Some(true)
    case Some(v) =>
      match PropertyFor(PropertiesOf(o), key)
      case Some(child) => Meaning(defs, child, v, fuel, how)
      case None =>
        match Get(o, "additionalProperties")
        case None => Some(true)
        case Some(additional) =>
          if additional.Bool? then Some(additional.b)
          else if additional.Obj? then Meaning(defs, additional, v, fuel, how)
          else None
  }
}
