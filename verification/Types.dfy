/** The TypeScript types rendered from schemas, and the values that inhabit them. */
module Types {
  import opened Options
  import opened Json
  import opened Unicode
  import opened Values
  import opened SchemaMeaning
  import opened Guards

  datatype Ty =
    | NamedTy(name: string)
    | LiteralTy(c: Json)
    | UnionTy(options: Tys)
    | UnknownTy
    | NeverTy
    | StringTy
    | NumberTy
    | BooleanTy
    | NullTy
    | ArrayTy(each: Ty)
    | ShapeTy(props: Props)       // { readonly "a": T; readonly "b"?: U; }
    | RecordTy(each: Ty)          // Readonly<Record<string, T>>
    | BothTy(left: Ty, right: Ty) // T & U

  datatype Tys = NoTys | OrTy(head: Ty, tail: Tys)

  datatype Props = NoProps | PropTy(name: string, optional: bool, ty: Ty, rest: Props)

  // ----- rendering -----

  function TypeOf(s: Json, depth: nat): Option<Ty>
    decreases s, 0
  {
    if depth > MAX_RENDER_DEPTH || !s.Obj? then None
    else match Get(s.members, "$ref")
      case Some(reference) =>
        if RefName(reference).None? || !s.members.rest.NoMembers? then None else Some(NamedTy(RefName(reference).value))
      case None => TypeOfNode(s.members, depth)
  }

  function TypeOfNode(o: Members, depth: nat): Option<Ty>
    decreases o, 3
  {
    match Get(o, "const")
    case Some(c) => if c.Arr? || c.Obj? then None else Some(LiteralTy(c))
    case None => if Get(o, "oneOf").Some? then TypeOfUnion(o, depth) else TypeOfKind(o, depth)
  }

  /** Unions cannot have sibling object-shape constraints. */
  function TypeOfUnion(o: Members, depth: nat): Option<Ty>
    decreases o, 2
  {
    if Get(o, "properties").Some? || Get(o, "required").Some? || Get(o, "additionalProperties").Some? then None
    else match Get(o, "oneOf")
      case Some(Arr(options)) =>
        (match TypeOfOptions(options, depth)
         case Some(tys) => Some(UnionTy(tys))
         case None => None)
      case _ => None
  }

  function TypeOfOptions(options: Items, depth: nat): Option<Tys>
    decreases options, 0
  {
    match options
    case NoItems => Some(NoTys)
    case Item(head, tail) =>
      match (TypeOf(head, depth + 1), TypeOfOptions(tail, depth))
      case (Some(t), Some(ts)) => Some(OrTy(t, ts))
      case _ => None
  }

  function TypeOfKind(o: Members, depth: nat): Option<Ty>
    decreases o, 2
  {
    match KindOf(o)
    case Untyped => if o.NoMembers? then Some(UnknownTy) else None
    case StringKind => Some(StringTy)
    case IntegerKind => Some(NumberTy)
    case NumberKind => Some(NumberTy)
    case BooleanKind => Some(BooleanTy)
    case NullKind => Some(NullTy)
    case ArrayKind =>
      (match Get(o, "items")
       case None => None
       case Some(each) =>
         match TypeOf(each, depth + 1)
         case Some(t) => Some(ArrayTy(t))
         case None => None)
    case ObjectKind => TypeOfObject(o, depth)
    case OtherKind => None
  }

  function TypeOfObject(o: Members, depth: nat): Option<Ty>
    decreases o, 1
  {
    var all := PropertiesOf(o);
    match (TypeOfProps(o, all, all, depth), TypeOfAdditional(o, depth))
    case (Some(props), Some(extra)) =>
      Some(if all.NoMembers? then RecordTy(if extra.Some? then extra.value else NeverTy)
           else if extra.Some? then BothTy(ShapeTy(props), RecordTy(extra.value))
           else ShapeTy(props))
    case _ => None
  }

  function TypeOfProps(o: Members, all: Members, rest: Members, depth: nat): Option<Props>
    requires all.NoMembers? || (o decreases to all)
    decreases o, 0, rest
  {
    match rest
    case NoMembers => Some(NoProps)
    case Member(name, _, more) =>
      match (if Get(all, name).Some? then TypeOf(Get(all, name).value, depth + 1) else None,
          TypeOfProps(o, all, more, depth))
      case (Some(t), Some(props)) => Some(PropTy(name, !IsRequired(RequiredOf(o), name), t, props))
      case _ => None
  }

  /** The type of undeclared members: none when the object is closed. */
  function TypeOfAdditional(o: Members, depth: nat): Option<Option<Ty>>
    decreases o, 0
  {
    match Get(o, "additionalProperties")
    case None => Some(Some(UnknownTy))
    case Some(additional) =>
      if additional.Bool? then Some(if additional.b then Some(UnknownTy) else None)
      else if !additional.Obj? then None
      else
        match TypeOf(additional, depth + 1)
        case Some(t) => Some(Some(t))
        case None => None
  }

  // ----- inhabitation -----

  predicate Inhabits(tys: map<string, Ty>, t: Ty, v: Value, fuel: nat)
    decreases fuel, t, 0
  {
    match t
    case NamedTy(name) => fuel > 0 && name in tys && Inhabits(tys, tys[name], v, fuel - 1)
    case LiteralTy(c) => Identical(c, v)
    case UnionTy(options) => InhabitsSome(tys, options, v, fuel)
    case UnknownTy => true
    case NeverTy => false
    case StringTy => v.JsText?
    case NumberTy => v.JsNumber? || v.JsNonFinite?
    case BooleanTy => v.JsBool?
    case NullTy => v.JsNull?
    case ArrayTy(each) => v.JsArray? && InhabitsItems(tys, each, v.items, fuel)
    case ShapeTy(props) => v.JsObject? && InhabitsProps(tys, props, v.fields, fuel)
    case RecordTy(each) => v.JsObject? && InhabitsFields(tys, each, v.fields, v.fields, fuel)
    case BothTy(left, right) => Inhabits(tys, left, v, fuel) && Inhabits(tys, right, v, fuel)
  }

  predicate InhabitsSome(tys: map<string, Ty>, options: Tys, v: Value, fuel: nat)
    decreases fuel, options, 0
  {
    options.OrTy? && (Inhabits(tys, options.head, v, fuel) || InhabitsSome(tys, options.tail, v, fuel))
  }

  predicate InhabitsItems(tys: map<string, Ty>, each: Ty, items: Values, fuel: nat)
    decreases fuel, each, 1, items
  {
    match items
    case NoValues => true
    case More(head, tail) => Inhabits(tys, each, head, fuel) && InhabitsItems(tys, each, tail, fuel)
    case Hole(tail) => InhabitsItems(tys, each, tail, fuel)
  }

  predicate InhabitsProps(tys: map<string, Ty>, props: Props, fields: Fields, fuel: nat)
    decreases fuel, props, 0
  {
    props.PropTy? ==>
      && (match Own(fields, Encode(props.name))
          case None => props.optional
          case Some(v) => Inhabits(tys, props.ty, v, fuel))
      && InhabitsProps(tys, props.rest, fields, fuel)
  }

  predicate InhabitsFields(tys: map<string, Ty>, each: Ty, keys: Fields, fields: Fields, fuel: nat)
    decreases fuel, each, 1, keys
  {
    keys.Field? ==>
      && (Own(fields, keys.key).Some? ==> Inhabits(tys, each, Own(fields, keys.key).value, fuel))
      && InhabitsFields(tys, each, keys.rest, fields, fuel)
  }
}
