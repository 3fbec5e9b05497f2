/** The emitted wire guards: their syntax, the compiler from schemas, and how JavaScript evaluates them. */
module Guards {
  import opened Options
  import opened Json
  import opened Unicode
  import opened Values
  import opened Formats
  import opened SchemaMeaning

  /** The variables a guard binds: `value`, `item{depth}` and `member{depth}`. */
  datatype Var = Root | ItemVar(level: nat) | MemberVar(level: nat)

  /** A variable, or an own property of a place: `item0["a"]["b"]`. */
  datatype Place = Local(name: Var) | Prop(base: Place, key: Text)

  datatype TextTest = UuidTest(csv: bool) | PathTest | DeltaTest | StartsWith(prefix: Text)

  datatype Guard =
    | Always                                                     // true
    | All(clauses: Clauses)                                      // (a && b && ...)
    | Same(p: Place, c: Json)                                    // p === literal
    | ExactlyOne(options: Clauses)                               // (Number(a) + Number(b) + ...) === 1
    | WireString(p: Place, min: nat, max: nat)
    | Test(p: Place, test: TextTest)
    | SafeNumber(p: Place)                                       // typeof p === "number" && Number.isSafeInteger(p)
    | AtLeast(p: Place, k: int)
    | AtMost(p: Place, k: int)
    | IsBoolean(p: Place)
    | IsNull(p: Place)
    | Every(p: Place, min: nat, max: nat, level: nat, each: Guard)
    | WireObject(p: Place)
    | Has(p: Place, key: Text)                                   // Object.hasOwn(p, key)
    | Unless(p: Place, key: Text, g: Guard)                      // (!Object.hasOwn(p, key) || g)
    | KeysAmong(p: Place, names: Members)                        // Object.keys(p).every((key) => key === a || ...)
    | MembersAre(p: Place, names: Members, level: nat, g: Guard) // check(p, (key, member) => key === a || ... || g)
    | Call(name: string, p: Place)

  datatype Clauses = NoClauses | Clause(head: Guard, tail: Clauses)

  function Then(a: Clauses, b: Clauses): Clauses {
    match a
    case NoClauses => b
    case Clause(head, tail) => Clause(head, Then(tail, b))
  }

  function One(g: Guard): Clauses { Clause(g, NoClauses) }

  // ----- the compiler -----

  const MAX_RENDER_DEPTH: nat := 32

  function Compile(s: Json, p: Place, depth: nat, csv: bool): Option<Guard>
    decreases s, 0
  {
    if depth > MAX_RENDER_DEPTH || !s.Obj? then None
    else match Get(s.members, "$ref")
      case Some(reference) =>
        if csv || RefName(reference).None? || !s.members.rest.NoMembers? then None
        else Some(Call(RefName(reference).value, p))
      case None => CompileNode(s.members, p, depth, csv)
  }

  function CompileNode(o: Members, p: Place, depth: nat, csv: bool): Option<Guard>
    decreases o, 4
  {
    match (CompileUnion(o, p, depth, csv), CompileType(o, p, depth, csv))
    case (Some(union), Some(typed)) => Some(Grouped(Then(CompileConst(o, p), Then(union, typed))))
    case _ => None
  }

  function Grouped(clauses: Clauses): Guard {
    if clauses.NoClauses? then Always else All(clauses)
  }

  function CompileConst(o: Members, p: Place): Clauses {
    match Get(o, "const")
    case Some(c) => One(Same(p, c))
    case None => NoClauses
  }

  function CompileUnion(o: Members, p: Place, depth: nat, csv: bool): Option<Clauses>
    decreases o, 3
  {
    match Get(o, "oneOf")
    case Some(Arr(options)) =>
      (match CompileOptions(options, p, depth, csv)
       case Some(alternatives) => Some(One(ExactlyOne(alternatives)))
       case None => None)
    case _ => Some(NoClauses)
  }

  function CompileOptions(options: Items, p: Place, depth: nat, csv: bool): Option<Clauses>
    decreases options, 0
  {
    match options
    case NoItems => Some(NoClauses)
    case Item(head, tail) =>
      match (Compile(head, p, depth + 1, csv), CompileOptions(tail, p, depth, csv))
      case (Some(g), Some(rest)) => Some(Clause(g, rest))
      case _ => None
  }

  function CompileType(o: Members, p: Place, depth: nat, csv: bool): Option<Clauses>
    decreases o, 3
  {
    match KindOf(o)
    case Untyped => Some(NoClauses)
    case StringKind => CompileText(o, p, csv)
    case IntegerKind => CompileInteger(o, p)
    case BooleanKind => Some(One(IsBoolean(p)))
    case NullKind => Some(One(IsNull(p)))
    case ArrayKind => CompileArray(o, p, depth, csv)
    case ObjectKind => CompileObject(o, p, depth, csv)
    case _ => None
  }

  function CompileText(o: Members, p: Place, csv: bool): Option<Clauses> {
    match (CompileFormat(o, p, csv), CompilePattern(o, p))
    case (Some(format), Some(pattern)) =>
      Some(Clause(WireString(p, CountOr(o, "minLength", 0), CountOr(o, "maxLength", DEFAULT_LENGTH)),
          Then(format, pattern)))
    case _ => None
  }

  function CompileFormat(o: Members, p: Place, csv: bool): Option<Clauses> {
    match FormatOf(o)
    case Unformatted => Some(NoClauses)
    case UuidFormat => Some(One(Test(p, UuidTest(csv))))
    case PathFormat => Some(One(Test(p, PathTest)))
    case DeltaFormat => Some(One(Test(p, DeltaTest)))
    case OtherFormat => None
  }

  function CompilePattern(o: Members, p: Place): Option<Clauses> {
    match WordOf(o, "pattern")
    case None => Some(NoClauses)
    case Some(pattern) =>
      if pattern != "" && pattern[0] == '^' then Some(One(Test(p, StartsWith(Encode(pattern[1..]))))) else None
  }

  /** Bounds must be exact safe integers. */
  predicate RenderableBound(bound: Option<Json>) {
    bound.Some? ==> bound.value.Int? && -MAX_SAFE <= bound.value.n <= MAX_SAFE
  }

  function CompileInteger(o: Members, p: Place): Option<Clauses> {
    var min, max := Get(o, "minimum"), Get(o, "maximum");
    if !RenderableBound(min) || !RenderableBound(max) then None
    else Some(Clause(SafeNumber(p), Then(if min.Some? then One(AtLeast(p, min.value.n)) else NoClauses,
                                         if max.Some? then One(AtMost(p, max.value.n)) else NoClauses)))
  }

  function CompileArray(o: Members, p: Place, depth: nat, csv: bool): Option<Clauses>
    decreases o, 2
  {
    match Get(o, "items")
    case None => None
    case Some(each) =>
      match Compile(each, Local(ItemVar(depth)), depth + 1, csv)
      case None => None
      case Some(g) =>
        Some(One(Every(p, CountOr(o, "minItems", 0), CountOr(o, "maxItems", DEFAULT_ITEMS), depth, g)))
  }

  predicate IsRequired(required: Items, name: string) {
    required.Item? && (required.head == Str(name) || IsRequired(required.tail, name))
  }

  /** Every required name is a string with a declared schema. */
  predicate RequiredDeclared(required: Items, properties: Members) {
    required.Item? ==>
      && required.head.Str? && Get(properties, required.head.text).Some?
      && RequiredDeclared(required.tail, properties)
  }

  predicate IsTag(child: Json) {
    child.Obj? && Get(child.members, "const").Some?
  }

  function CompileObject(o: Members, p: Place, depth: nat, csv: bool): Option<Clauses>
    decreases o, 2
  {
    var all := PropertiesOf(o);
    if !RequiredDeclared(RequiredOf(o), all) then None
    else
      match (CompileProperties(o, all, all, p, depth, csv, true),
             CompileProperties(o, all, all, p, depth, csv, false),
             CompileAdditional(o, all, p, depth, csv))
      case (Some(tags), Some(others), Some(rest)) => Some(Clause(WireObject(p), Then(tags, Then(others, rest))))
      case _ => None
  }

  /** The clauses of the declared properties that are (or are not) constant tags, in declaration order. */
  function CompileProperties(o: Members, all: Members, rest: Members, p: Place, depth: nat, csv: bool,
                             tagged: bool): Option<Clauses>
    requires all.NoMembers? || (o decreases to all)
    decreases o, 1, rest
  {
    match rest
    case NoMembers => Some(NoClauses)
    case Member(name, _, more) =>
      match (CompileProperty(o, all, name, p, depth, csv, tagged),
          CompileProperties(o, all, more, p, depth, csv, tagged))
      case (Some(clauses), Some(others)) => Some(Then(clauses, others))
      case _ => None
  }

  function CompileProperty(o: Members, all: Members, name: string, p: Place, depth: nat, csv: bool,
                           tagged: bool): Option<Clauses>
    requires all.NoMembers? || (o decreases to all)
    decreases o, 0
  {
    match Get(all, name)
    case None => Some(NoClauses)
    case Some(child) =>
      if IsTag(child) != tagged then Some(NoClauses)
      else
        match Compile(child, Prop(p, Encode(name)), depth + 1, csv)
        case None => None
        case Some(g) => Some(PropertyClauses(p, Encode(name), IsRequired(RequiredOf(o), name), g))
  }

  function PropertyClauses(p: Place, key: Text, required: bool, g: Guard): Clauses {
    if required then Clause(Has(p, key), if g.Always? then NoClauses else One(g))
    else if g.Always? then NoClauses
    else One(Unless(p, key, g))
  }

  function CompileAdditional(o: Members, all: Members, p: Place, depth: nat, csv: bool): Option<Clauses>
    decreases o, 1
  {
    match Get(o, "additionalProperties")
    case None => Some(NoClauses)
    case Some(additional) =>
      if additional.Bool? then Some(if additional.b then NoClauses else One(KeysAmong(p, all)))
      else if !additional.Obj? then None
      else
        match Compile(additional, Local(MemberVar(depth)), depth + 1, csv)
        case None => None
        case Some(g) => Some(if g.Always? then NoClauses else One(MembersAre(p, all, depth, g)))
  }

  // ----- evaluation -----

  /** `Stuck` covers a thrown error, a read of a missing property, and a call beyond the fuel. */
  datatype Verdict = Stuck | Yields(b: bool)

  type Env = map<Var, Value>

  function At(p: Place, env: Env): Option<Value> {
    match p
    case Local(x) => if x in env then Some(env[x]) else None
    case Prop(base, key) =>
      match At(base, env)
      case Some(JsObject(fields)) => Own(fields, key)
      case _ => None
  }

  predicate Passes(t: Text, test: TextTest) {
    match test
    case UuidTest(csv) => IsUuid(t, csv)
    case PathTest => IsChangePath(t)
    case DeltaTest => IsDeltaByPattern(t)
    case StartsWith(prefix) => prefix <= t
  }

  predicate Named(names: Members, key: Text) {
    names.Member? && (Encode(names.name) == key || Named(names.rest, key))
  }

  function Eval(table: map<string, Guard>, g: Guard, env: Env, fuel: nat): Verdict
    decreases fuel, g, 1
  {
    match g
    case Always => Yields(true)
    case All(clauses) => EvalAll(table, clauses, env, fuel)
    case ExactlyOne(options) =>
      (match CountTrue(table, options, env, fuel)
       case None => Stuck
       case Some(n) => Yields(n == 1))
    case Call(name, p) =>
      if fuel == 0 || name !in table || At(p, env).None? then Stuck
      else Eval(table, table[name], map[Root := At(p, env).value], fuel - 1)
    case _ => if At(g.p, env).None? then Stuck else EvalAt(table, g, At(g.p, env).value, env, fuel)
  }

  /** A guard on the value found at its place. */
  function EvalAt(table: map<string, Guard>, g: Guard, v: Value, env: Env, fuel: nat): Verdict
    decreases fuel, g, 0
  {
    match g
    case Same(_, c) => Yields(Identical(c, v))
    case WireString(_, min, max) => Yields(v.JsText? && Points(v.text).Some? && min <= |Points(v.text).value| <= max)
    case Test(_, test) => if v.JsText? then Yields(Passes(v.text, test)) else Stuck
    case SafeNumber(_) => Yields(v.JsNumber? && SafeInteger(v.n))
    case AtLeast(_, k) => if v.JsNumber? then Yields(v.n >= k as real) else Stuck
    case AtMost(_, k) => if v.JsNumber? then Yields(v.n <= k as real) else Stuck
    case IsBoolean(_) => Yields(v.JsBool?)
    case IsNull(_) => Yields(v.JsNull?)
    case Every(_, min, max, level, each) =>
      if !v.JsArray? || !(min <= Length(v.items) <= max) then Yields(false)
      else EvalItems(table, each, level, v.items, env, fuel)
    case WireObject(_) => Yields(v.JsObject?)
    case Has(_, key) => if v.JsObject? then Yields(Own(v.fields, key).Some?) else Stuck
    case Unless(_, key, inner) =>
      if !v.JsObject? then Stuck
      else if Own(v.fields, key).None? then Yields(true)
      else Eval(table, inner, env, fuel)
    case KeysAmong(_, names) => if v.JsObject? then Yields(AllNamed(names, v.fields)) else Stuck
    case MembersAre(_, names, level, inner) =>
      if v.JsObject? then EvalMembers(table, inner, names, level, v.fields, v.fields, env, fuel) else Stuck
    case _ => Stuck
  }

  /** Short-circuit conjunction. */
  function EvalAll(table: map<string, Guard>, clauses: Clauses, env: Env, fuel: nat): Verdict
    decreases fuel, clauses
  {
    match clauses
    case NoClauses => Yields(true)
    case Clause(head, tail) =>
      var first := Eval(table, head, env, fuel);
      if first == Yields(true) then EvalAll(table, tail, env, fuel) else first
  }

  function CountTrue(table: map<string, Guard>, options: Clauses, env: Env, fuel: nat): Option<nat>
    decreases fuel, options
  {
    match options
    case NoClauses => Some(0)
    case Clause(head, tail) =>
      match (Eval(table, head, env, fuel), CountTrue(table, tail, env, fuel))
      case (Yields(b), Some(n)) => Some(n + if b then 1 else 0)
      case _ => None
  }

  /** `items.every((item) => each)`, which passes over holes. */
  function EvalItems(table: map<string, Guard>, each: Guard, level: nat, items: Values, env: Env, fuel: nat): Verdict
    decreases fuel, each, 2, items
  {
    match items
    case NoValues => Yields(true)
    case More(head, tail) =>
      var first := Eval(table, each, env[ItemVar(level) := head], fuel);
      if first == Yields(true) then EvalItems(table, each, level, tail, env, fuel) else first
    case Hole(tail) => EvalItems(table, each, level, tail, env, fuel)
  }

  predicate AllNamed(names: Members, keys: Fields) {
    keys.Field? ==> Named(names, keys.key) && AllNamed(names, keys.rest)
  }

  /** Every own property is declared or passes the guard for additional members. */
  function EvalMembers(table: map<string, Guard>, inner: Guard, names: Members, level: nat, keys: Fields,
                       fields: Fields,
                       env: Env, fuel: nat): Verdict
    decreases fuel, inner, 2, keys
  {
    match keys
    case NoFields => Yields(true)
    case Field(k, _, rest) =>
      if Named(names, k) then EvalMembers(table, inner, names, level, rest, fields, env, fuel)
      else
        var first := if Own(fields, k).None? then Stuck
                     else Eval(table, inner, env[MemberVar(level) := Own(fields, k).value], fuel);
        if first == Yields(true) then EvalMembers(table, inner, names, level, rest, fields, env, fuel) else first
  }

  /** Every guard function that a guard calls is among the given names. */
  predicate CallsWithin(g: Guard, names: set<string>) {
    match g
    case All(clauses) => ClausesWithin(clauses, names)
    case ExactlyOne(options) => ClausesWithin(options, names)
    case Every(_, _, _, _, each) => CallsWithin(each, names)
    case Unless(_, _, inner) => CallsWithin(inner, names)
    case MembersAre(_, _, _, inner) => CallsWithin(inner, names)
    case Call(name, _) => name in names
    case _ => true
  }

  predicate ClausesWithin(clauses: Clauses, names: set<string>) {
    clauses.Clause? ==> CallsWithin(clauses.head, names) && ClausesWithin(clauses.tail, names)
  }
}
