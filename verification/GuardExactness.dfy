/** Compiled guards decide exactly what the schema means, and never get stuck doing so. */
module GuardExactness {
  import opened Options
  import opened Json
  import opened Unicode
  import opened Values
  import opened Formats
  import opened SchemaMeaning
  import opened Guards

  /** The guard functions in scope: one per definition, compiled from it, calling only one another. */
  ghost predicate Linked(table: map<string, Guard>, defs: Defs) {
    forall n :: n in table ==>
      && n in defs && Compile(defs[n], Local(Root), 0, false) == Some(table[n])
      && CallsWithin(table[n], table.Keys)
  }

  // ----- clause lists -----

  lemma {:induction false} EvalThen(table: map<string, Guard>, a: Clauses, b: Clauses, env: Env, fuel: nat)
    ensures EvalAll(table, Then(a, b), env, fuel) ==
            if EvalAll(table, a, env, fuel) == Yields(true) then EvalAll(table, b, env, fuel)
                else EvalAll(table, a, env, fuel)
  {
    if a.NoClauses? {
    } else {
      EvalThen(table, a.tail, b, env, fuel);
    }
  }

  lemma {:induction false} WithinThen(a: Clauses, b: Clauses, names: set<string>)
    ensures ClausesWithin(Then(a, b), names) <==> ClausesWithin(a, names) && ClausesWithin(b, names)
  {
    if a.NoClauses? {
    } else {
      WithinThen(a.tail, b, names);
    }
  }

  lemma EvalOne(table: map<string, Guard>, g: Guard, env: Env, fuel: nat)
    ensures EvalAll(table, One(g), env, fuel) == Eval(table, g, env, fuel)
  {}

  /** Dropping a conjunction of nothing to `true` changes nothing. */
  lemma EvalGrouped(table: map<string, Guard>, clauses: Clauses, env: Env, fuel: nat)
    ensures Eval(table, Grouped(clauses), env, fuel) == EvalAll(table, clauses, env, fuel)
    ensures forall names :: CallsWithin(Grouped(clauses), names) <==> ClausesWithin(clauses, names)
  {}

  /** A clause on the value at a place, then the rest. */
  lemma EvalFirst(table: map<string, Guard>, g: Guard, rest: Clauses, env: Env, v: Value, fuel: nat)
    requires !g.Always? && !g.All? && !g.ExactlyOne? && !g.Call?
    requires At(g.p, env) == Some(v)
    ensures EvalAll(table, Clause(g, rest), env, fuel) ==
            if EvalAt(table, g, v, env, fuel) == Yields(true) then EvalAll(table, rest, env, fuel)
                else EvalAt(table, g, v, env, fuel)
  {}

  // ----- scalar kinds -----

  lemma TextExact(table: map<string, Guard>, o: Members, p: Place, csv: bool, env: Env, v: Value, fuel: nat)
    requires CompileText(o, p, csv).Some? && At(p, env) == Some(v)
    ensures EvalAll(table, CompileText(o, p, csv).value, env, fuel) == Yields(v.JsText? && TextOk(o, v.text, csv))
  {
    var format, pattern := CompileFormat(o, p, csv).value, CompilePattern(o, p).value;
    var clauses := CompileText(o, p, csv).value;
    EvalFirst(table, clauses.head, clauses.tail, env, v, fuel);
    EvalThen(table, format, pattern, env, fuel);
    if v.JsText? {
      FormatExact(table, o, p, csv, env, v, fuel);
      PatternExact(table, o, p, env, v, fuel);
    }
  }

  lemma FormatExact(table: map<string, Guard>, o: Members, p: Place, csv: bool, env: Env, v: Value, fuel: nat)
    requires CompileFormat(o, p, csv).Some? && At(p, env) == Some(v) && v.JsText?
    ensures EvalAll(table, CompileFormat(o, p, csv).value, env, fuel) == Yields(FormatOk(o, v.text, csv))
  {
    match FormatOf(o)
    case UuidFormat => EvalFirst(table, Test(p, UuidTest(csv)), NoClauses, env, v, fuel);
    case PathFormat => EvalFirst(table, Test(p, PathTest), NoClauses, env, v, fuel);
    case DeltaFormat =>
      EvalFirst(table, Test(p, DeltaTest), NoClauses, env, v, fuel);
      DeltaAgrees(v.text);
    case _ =>
  }

  lemma PatternExact(table: map<string, Guard>, o: Members, p: Place, env: Env, v: Value, fuel: nat)
    requires CompilePattern(o, p).Some? && At(p, env) == Some(v) && v.JsText?
    ensures EvalAll(table, CompilePattern(o, p).value, env, fuel) == Yields(PatternOk(o, v.text))
  {
    var clauses := CompilePattern(o, p).value;
    if clauses.Clause? { EvalFirst(table, clauses.head, NoClauses, env, v, fuel); }
  }

  lemma IntegerExact(table: map<string, Guard>, o: Members, p: Place, env: Env, v: Value, fuel: nat)
    requires CompileInteger(o, p).Some? && At(p, env) == Some(v)
    ensures EvalAll(table, CompileInteger(o, p).value, env, fuel) == Yields(v.JsNumber? && IntegerOk(o, v.n))
  {
    var min, max := Get(o, "minimum"), Get(o, "maximum");
    var low := if min.Some? then One(AtLeast(p, min.value.n)) else NoClauses;
    var high := if max.Some? then One(AtMost(p, max.value.n)) else NoClauses;
    EvalFirst(table, SafeNumber(p), Then(low, high), env, v, fuel);
    EvalThen(table, low, high, env, fuel);
    if v.JsNumber? && SafeInteger(v.n) {
      if min.Some? {
        EvalFirst(table, low.head, NoClauses, env, v, fuel);
        FloorCompares(v.n, min.value.n);
      }
      if max.Some? {
        EvalFirst(table, high.head, NoClauses, env, v, fuel);
        FloorCompares(v.n, max.value.n);
      }
    }
  }

  lemma FloorCompares(r: real, k: int)
    requires r == r.Floor as real
    ensures r >= k as real <==> r.Floor >= k
    ensures r <= k as real <==> r.Floor <= k
  {}

  // ----- members of an object -----

  /** A decided object decides each of its fields ... */
  lemma {:induction false} FieldDecided(defs: Defs, o: Members, keys: Fields, fields: Fields, k: Text, fuel: nat,
                                        how: Reading)
    requires FieldsMeaning(defs, o, keys, fields, fuel, how).Some? && Own(keys, k).Some?
    ensures FieldMeaning(defs, o, k, fields, fuel, how).Some?
    ensures FieldsMeaning(defs, o, keys, fields, fuel, how).value ==> FieldMeaning(defs, o, k, fields, fuel, how).value
    decreases keys
  {
    if keys.key == k {
    } else {
      FieldDecided(defs, o, keys.rest, fields, k, fuel, how);
    }
  }

  /** ... and when it is refused, some field is to blame. */
  lemma {:induction false} BadField(defs: Defs, o: Members, keys: Fields, fields: Fields, fuel: nat,
                                    how: Reading) returns (k: Text)
    requires FieldsMeaning(defs, o, keys, fields, fuel, how) == Some(false)
    ensures Own(keys, k).Some? && FieldMeaning(defs, o, k, fields, fuel, how) == Some(false)
    decreases keys
  {
    k := keys.key;
    if FieldMeaning(defs, o, k, fields, fuel, how) != Some(false) {
        k := BadField(defs, o, keys.rest, fields, fuel, how); }
  }

  lemma {:induction false} RequiredPresent(required: Items, fields: Fields, name: string)
    requires RequiredOk(required, fields) && IsRequired(required, name)
    ensures Own(fields, Encode(name)).Some?
  {
    if required.head == Str(name) {
    } else {
      RequiredPresent(required.tail, fields, name);
    }
  }

  lemma {:induction false} MissingRequired(required: Items, fields: Fields) returns (name: string)
    requires !RequiredOk(required, fields)
    ensures IsRequired(required, name) && Own(fields, Encode(name)).None?
  {
    if RequiredOk(required.tail, fields) {
      name := required.head.text;
    } else {
      name := MissingRequired(required.tail, fields);
    }
  }

  lemma {:induction false} RequiredAreDeclared(required: Items, all: Members, name: string)
    requires RequiredDeclared(required, all) && IsRequired(required, name)
    ensures Get(all, name).Some?
  {
    if required.head == Str(name) {
    } else {
      RequiredAreDeclared(required.tail, all, name);
    }
  }

  /** Keys and names correspond: encoding is injective. */
  lemma {:induction false} PropertyByName(all: Members, name: string)
    ensures PropertyFor(all, Encode(name)) == Get(all, name)
  {
    if all.NoMembers? {
    } else {
      PropertyByName(all.rest, name);
      if Encode(all.name) == Encode(name) { EncodeInjective(all.name, name); }
    }
  }

  lemma {:induction false} NamedIsDeclared(all: Members, key: Text)
    ensures Named(all, key) <==> PropertyFor(all, key).Some?
  {
    if all.NoMembers? {
    } else {
      NamedIsDeclared(all.rest, key);
    }
  }

  lemma {:induction false} NameOf(all: Members, key: Text) returns (name: string)
    requires PropertyFor(all, key).Some?
    ensures Encode(name) == key && Get(all, name) == PropertyFor(all, key)
  {
    name := all.name;
    if Encode(all.name) != key { name := NameOf(all.rest, key); }
  }

  // ----- what the clauses of an object decide -----

  predicate PropOk(defs: Defs, o: Members, name: string, fields: Fields, fuel: nat, how: Reading) {
    match (Get(PropertiesOf(o), name), Own(fields, Encode(name)))
    case (Some(child), Some(v)) => Meaning(defs, child, v, fuel, how) == Some(true)
    case (Some(_), None) => !IsRequired(RequiredOf(o), name)
    case _ => true
  }

  predicate InTurn(o: Members, name: string, tagged: bool) {
    Get(PropertiesOf(o), name).Some? && IsTag(Get(PropertiesOf(o), name).value) == tagged
  }

  predicate PropsOk(defs: Defs, o: Members, rest: Members, fields: Fields, fuel: nat, how: Reading, tagged: bool)
    decreases rest
  {
    rest.Member? ==>
      && (InTurn(o, rest.name, tagged) ==> PropOk(defs, o, rest.name, fields, fuel, how))
      && PropsOk(defs, o, rest.rest, fields, fuel, how, tagged)
  }

  predicate RestOk(defs: Defs, o: Members, keys: Fields, fields: Fields, fuel: nat, how: Reading)
    decreases keys
  {
    keys.Field? ==>
      && (Named(PropertiesOf(o), keys.key) || FieldMeaning(defs, o, keys.key, fields, fuel, how) == Some(true))
      && RestOk(defs, o, keys.rest, fields, fuel, how)
  }

  lemma {:induction false} PropsOkAt(defs: Defs, o: Members, rest: Members, fields: Fields, fuel: nat, how: Reading,
                                     tagged: bool, name: string)
    requires PropsOk(defs, o, rest, fields, fuel, how, tagged) && Get(rest, name).Some? && InTurn(o, name, tagged)
    ensures PropOk(defs, o, name, fields, fuel, how)
    decreases rest
  {
    if rest.name == name {
    } else {
      PropsOkAt(defs, o, rest.rest, fields, fuel, how, tagged, name);
    }
  }

  lemma {:induction false} RestOkAt(defs: Defs, o: Members, keys: Fields, fields: Fields, fuel: nat, how: Reading,
                                    k: Text)
    requires RestOk(defs, o, keys, fields, fuel, how) && Own(keys, k).Some? && !Named(PropertiesOf(o), k)
    ensures FieldMeaning(defs, o, k, fields, fuel, how) == Some(true)
    decreases keys
  {
    if keys.key == k {
    } else {
      RestOkAt(defs, o, keys.rest, fields, fuel, how, k);
    }
  }

  /** A declared field means what its schema says. */
  lemma DeclaredField(defs: Defs, o: Members, name: string, fields: Fields, fuel: nat, how: Reading)
    requires FieldsMeaning(defs, o, fields, fields, fuel, how).Some?
    requires Get(PropertiesOf(o), name).Some? && Own(fields, Encode(name)).Some?
    ensures var m := Meaning(defs, Get(PropertiesOf(o), name).value, Own(fields, Encode(name)).value, fuel, how);
            && m.Some? && FieldMeaning(defs, o, Encode(name), fields, fuel, how) == m
            && (FieldsMeaning(defs, o, fields, fields, fuel, how).value ==> m.value)
  {
    PropertyByName(PropertiesOf(o), name);
    FieldDecided(defs, o, fields, fields, Encode(name), fuel, how);
  }

  lemma {:induction false} AllPropsOk(defs: Defs, o: Members, rest: Members, fields: Fields, fuel: nat, how: Reading,
                                      tagged: bool)
    requires FieldsMeaning(defs, o, fields, fields, fuel, how) == Some(true)
    requires RequiredOk(RequiredOf(o), fields)
    ensures PropsOk(defs, o, rest, fields, fuel, how, tagged)
    decreases rest
  {
    if rest.NoMembers? {
    } else {
      AllPropsOk(defs, o, rest.rest, fields, fuel, how, tagged);
      if InTurn(o, rest.name, tagged) {
        if Own(fields, Encode(rest.name)).Some? {
          DeclaredField(defs, o, rest.name, fields, fuel, how);
        } else if IsRequired(RequiredOf(o), rest.name) {
          RequiredPresent(RequiredOf(o), fields, rest.name);
        }
      }
    }
  }

  lemma {:induction false} AllRestOk(defs: Defs, o: Members, keys: Fields, fields: Fields, fuel: nat, how: Reading)
    requires FieldsMeaning(defs, o, keys, fields, fuel, how) == Some(true)
    ensures RestOk(defs, o, keys, fields, fuel, how)
    decreases keys
  {
    if keys.NoFields? {
    } else {
      AllRestOk(defs, o, keys.rest, fields, fuel, how);
    }
  }

  /** Tags first, then the other properties, then the remaining keys: together the meaning of the object. */
  lemma ObjectSplits(defs: Defs, o: Members, fields: Fields, fuel: nat, how: Reading)
    requires FieldsMeaning(defs, o, fields, fields, fuel, how).Some?
    requires RequiredDeclared(RequiredOf(o), PropertiesOf(o))
    ensures (RequiredOk(RequiredOf(o), fields) && FieldsMeaning(defs, o, fields, fields, fuel, how).value) <==>
            (&& PropsOk(defs, o, PropertiesOf(o), fields, fuel, how, true)
             && PropsOk(defs, o, PropertiesOf(o), fields, fuel, how, false)
             && RestOk(defs, o, fields, fields, fuel, how))
  {
    var all := PropertiesOf(o);
    if !RequiredOk(RequiredOf(o), fields) {
      var name := MissingRequired(RequiredOf(o), fields);
      RequiredAreDeclared(RequiredOf(o), all, name);
      var tagged := IsTag(Get(all, name).value);
      if PropsOk(defs, o, all, fields, fuel, how, tagged) { PropsOkAt(defs, o, all, fields, fuel, how, tagged, name); }
    } else if !FieldsMeaning(defs, o, fields, fields, fuel, how).value {
      var k := BadField(defs, o, fields, fields, fuel, how);
      NamedIsDeclared(all, k);
      if PropertyFor(all, k).Some? {
        var name := NameOf(all, k);
        DeclaredField(defs, o, name, fields, fuel, how);
        var tagged := IsTag(Get(all, name).value);
        if PropsOk(defs, o, all, fields, fuel, how, tagged) {
            PropsOkAt(defs, o, all, fields, fuel, how, tagged, name); }
      } else if RestOk(defs, o, fields, fields, fuel, how) {
        RestOkAt(defs, o, fields, fields, fuel, how, k);
      }
    } else {
      AllPropsOk(defs, o, all, fields, fuel, how, true);
      AllPropsOk(defs, o, all, fields, fuel, how, false);
      AllRestOk(defs, o, fields, fields, fuel, how);
    }
  }

  // ----- the compiler is exact -----

  /**
   For every schema that renders, every place, every environment and every value the meaning decides, the guard
   yields the meaning: it neither throws nor reads a missing property, whatever the order of its clauses.
   */
  lemma {:induction false} Exact(table: map<string, Guard>, defs: Defs, s: Json, p: Place, depth: nat, csv: bool,
                                 env: Env, v: Value, fuel: nat)
    requires Linked(table, defs)
    requires Compile(s, p, depth, csv).Some? && CallsWithin(Compile(s, p, depth, csv).value, table.Keys)
    requires At(p, env) == Some(v)
    requires Meaning(defs, s, v, fuel, AsWire(csv)).Some?
    ensures Eval(table, Compile(s, p, depth, csv).value, env, fuel) ==
            Yields(Meaning(defs, s, v, fuel, AsWire(csv)).value)
    decreases fuel, s, 0
  {
    if Get(s.members, "$ref").Some? {
      var name := CalledName(s.members, p, depth, csv, table.Keys);
      FollowedMeaning(defs, s.members, v, fuel, AsWire(csv));
      CallExact(table, defs, name, p, env, v, fuel - 1);
    } else {
      NodeForms(defs, s, p, depth, csv, v, fuel);
      NodeExact(table, defs, s.members, p, depth, csv, env, v, fuel);
    }
  }

  lemma NodeForms(defs: Defs, s: Json, p: Place, depth: nat, csv: bool, v: Value, fuel: nat)
    requires Compile(s, p, depth, csv).Some? && s.Obj? && Get(s.members, "$ref").None?
    ensures Compile(s, p, depth, csv) == CompileNode(s.members, p, depth, csv)
    ensures Meaning(defs, s, v, fuel, AsWire(csv)) == NodeMeaning(defs, s.members, v, fuel, AsWire(csv))
  {
  }

  /** A reference becomes a call, one level of fuel deeper. */
  lemma {:induction false} CallExact(table: map<string, Guard>, defs: Defs, name: string, p: Place, env: Env, v: Value,
                                     less: nat)
    requires Linked(table, defs) && name in table && name in defs
    requires At(p, env) == Some(v) && Meaning(defs, defs[name], v, less, AsWire(false)).Some?
    ensures Eval(table, Call(name, p), env, less + 1) == Yields(Meaning(defs, defs[name], v, less, AsWire(false)).value)
    decreases less, defs[name], 1
  {
    LinkedAt(table, defs, name);
    EvalCall(table, name, p, env, v, less);
    var inner := map[Root := v];
    assert At(Local(Root), inner) == Some(v);
    Exact(table, defs, defs[name], Local(Root), 0, false, inner, v, less);
  }

  lemma EvalCall(table: map<string, Guard>, name: string, p: Place, env: Env, v: Value, less: nat)
    requires name in table && At(p, env) == Some(v)
    ensures Eval(table, Call(name, p), env, less + 1) == Eval(table, table[name], map[Root := v], less)
  {
  }

  lemma CalledName(o: Members, p: Place, depth: nat, csv: bool, names: set<string>) returns (name: string)
    requires Get(o, "$ref").Some?
    requires Compile(Obj(o), p, depth, csv).Some? && CallsWithin(Compile(Obj(o), p, depth, csv).value, names)
    ensures RefName(Get(o, "$ref").value) == Some(name) && !csv && name in names
    ensures Compile(Obj(o), p, depth, csv) == Some(Call(name, p))
  {
    name := RefName(Get(o, "$ref").value).value;
  }

  lemma FollowedMeaning(defs: Defs, o: Members, v: Value, fuel: nat, how: Reading)
    requires Get(o, "$ref").Some? && Meaning(defs, Obj(o), v, fuel, how).Some?
    ensures var name := RefName(Get(o, "$ref").value);
            && fuel > 0 && name.Some? && name.value in defs
            && Meaning(defs, Obj(o), v, fuel, how) == Meaning(defs, defs[name.value], v, fuel - 1, how)
  {
  }

  lemma LinkedAt(table: map<string, Guard>, defs: Defs, n: string)
    requires Linked(table, defs) && n in table
    ensures n in defs && Compile(defs[n], Local(Root), 0, false) == Some(table[n])
    ensures CallsWithin(table[n], table.Keys)
  {
  }

  lemma {:induction false} NodeExact(table: map<string, Guard>, defs: Defs, o: Members, p: Place, depth: nat, csv: bool,
                                     env: Env, v: Value, fuel: nat)
    requires Linked(table, defs)
    requires CompileNode(o, p, depth, csv).Some? && CallsWithin(CompileNode(o, p, depth, csv).value, table.Keys)
    requires At(p, env) == Some(v)
    requires NodeMeaning(defs, o, v, fuel, AsWire(csv)).Some?
    ensures Eval(table, CompileNode(o, p, depth, csv).value, env, fuel) ==
            Yields(NodeMeaning(defs, o, v, fuel, AsWire(csv)).value)
    decreases fuel, o, 5
  {
    var union, typed := CompileUnion(o, p, depth, csv).value, CompileType(o, p, depth, csv).value;
    var first := CompileConst(o, p);
    EvalGrouped(table, Then(first, Then(union, typed)), env, fuel);
    EvalThen(table, first, Then(union, typed), env, fuel);
    EvalThen(table, union, typed, env, fuel);
    WithinThen(first, Then(union, typed), table.Keys);
    WithinThen(union, typed, table.Keys);
    ConstExact(table, o, p, csv, env, v, fuel);
    UnionExact(table, defs, o, p, depth, csv, env, v, fuel);
    TypeExact(table, defs, o, p, depth, csv, env, v, fuel);
  }

  lemma ConstExact(table: map<string, Guard>, o: Members, p: Place, csv: bool, env: Env, v: Value, fuel: nat)
    requires At(p, env) == Some(v)
    ensures EvalAll(table, CompileConst(o, p), env, fuel) == Yields(ConstOk(o, v, AsWire(csv)))
  {
    if Get(o, "const").Some? { EvalFirst(table, Same(p, Get(o, "const").value), NoClauses, env, v, fuel); }
  }

  lemma {:induction false} UnionExact(table: map<string, Guard>, defs: Defs, o: Members, p: Place, depth: nat,
                                      csv: bool,
                                      env: Env, v: Value, fuel: nat)
    requires Linked(table, defs)
    requires CompileUnion(o, p, depth, csv).Some? && ClausesWithin(CompileUnion(o, p, depth, csv).value, table.Keys)
    requires At(p, env) == Some(v)
    requires UnionMeaning(defs, o, v, fuel, AsWire(csv)).Some?
    ensures EvalAll(table, CompileUnion(o, p, depth, csv).value, env, fuel) ==
            Yields(UnionMeaning(defs, o, v, fuel, AsWire(csv)).value)
    decreases fuel, o, 4
  {
    match Get(o, "oneOf")
    case Some(Arr(options)) =>
      var alternatives := CompileOptions(options, p, depth, csv).value;
      OptionsExact(table, defs, options, p, depth, csv, env, v, fuel);
      EvalOne(table, ExactlyOne(alternatives), env, fuel);
    case _ =>
  }

  lemma {:induction false} OptionsExact(table: map<string, Guard>, defs: Defs, options: Items, p: Place, depth: nat,
                                        csv: bool,
                                        env: Env, v: Value, fuel: nat)
    requires Linked(table, defs)
    requires CompileOptions(options, p, depth, csv).Some?
    requires ClausesWithin(CompileOptions(options, p, depth, csv).value, table.Keys)
    requires At(p, env) == Some(v)
    requires Matching(defs, options, v, fuel, AsWire(csv)).Some?
    ensures CountTrue(table, CompileOptions(options, p, depth, csv).value, env, fuel) ==
            Matching(defs, options, v, fuel, AsWire(csv))
    decreases fuel, options, 0
  {
    if options.NoItems? {
    } else {
      var g, rest := Compile(options.head, p, depth + 1, csv).value, CompileOptions(options.tail, p, depth, csv).value;
      OptionParts(defs, options, p, depth, csv, v, fuel);
      Exact(table, defs, options.head, p, depth + 1, csv, env, v, fuel);
      OptionsExact(table, defs, options.tail, p, depth, csv, env, v, fuel);
      CountFirst(table, g, rest, env, fuel);
    }
  }

  lemma OptionParts(defs: Defs, options: Items, p: Place, depth: nat, csv: bool, v: Value, fuel: nat)
    requires options.Item? && CompileOptions(options, p, depth, csv).Some?
    requires Matching(defs, options, v, fuel, AsWire(csv)).Some?
    ensures var g, rest := Compile(options.head, p, depth + 1, csv), CompileOptions(options.tail, p, depth, csv);
            g.Some? && rest.Some? && CompileOptions(options, p, depth, csv) == Some(Clause(g.value, rest.value))
    ensures var one, more := Meaning(defs, options.head, v, fuel, AsWire(csv)),
        Matching(defs, options.tail, v, fuel, AsWire(csv));
            && one.Some? && more.Some?
            && Matching(defs, options, v, fuel, AsWire(csv)) == Some(more.value + if one.value then 1 else 0)
  {
  }

  lemma CountFirst(table: map<string, Guard>, g: Guard, rest: Clauses, env: Env, fuel: nat)
    requires Eval(table, g, env, fuel).Yields? && CountTrue(table, rest, env, fuel).Some?
    ensures CountTrue(table, Clause(g, rest), env, fuel) ==
            Some(CountTrue(table, rest, env, fuel).value + if Eval(table, g, env, fuel).b then 1 else 0)
  {
  }

  lemma {:induction false} TypeExact(table: map<string, Guard>, defs: Defs, o: Members, p: Place, depth: nat, csv: bool,
                                     env: Env, v: Value, fuel: nat)
    requires Linked(table, defs)
    requires CompileType(o, p, depth, csv).Some? && ClausesWithin(CompileType(o, p, depth, csv).value, table.Keys)
    requires At(p, env) == Some(v)
    requires TypeMeaning(defs, o, v, fuel, AsWire(csv)).Some?
    ensures EvalAll(table, CompileType(o, p, depth, csv).value, env, fuel) ==
            Yields(TypeMeaning(defs, o, v, fuel, AsWire(csv)).value)
    decreases fuel, o, 4
  {
    match KindOf(o)
    case StringKind => TextExact(table, o, p, csv, env, v, fuel);
    case IntegerKind => IntegerExact(table, o, p, env, v, fuel);
    case BooleanKind => EvalFirst(table, IsBoolean(p), NoClauses, env, v, fuel);
    case NullKind => EvalFirst(table, IsNull(p), NoClauses, env, v, fuel);
    case ArrayKind => ArrayExact(table, defs, o, p, depth, csv, env, v, fuel);
    case ObjectKind => ObjectExact(table, defs, o, p, depth, csv, env, v, fuel);
    case _ =>
  }

  lemma {:induction false} ArrayExact(table: map<string, Guard>, defs: Defs, o: Members, p: Place, depth: nat,
                                      csv: bool,
                                      env: Env, v: Value, fuel: nat)
    requires Linked(table, defs)
    requires CompileArray(o, p, depth, csv).Some? && ClausesWithin(CompileArray(o, p, depth, csv).value, table.Keys)
    requires At(p, env) == Some(v)
    requires ArrayMeaning(defs, o, v, fuel, AsWire(csv)).Some?
    ensures EvalAll(table, CompileArray(o, p, depth, csv).value, env, fuel) ==
            Yields(ArrayMeaning(defs, o, v, fuel, AsWire(csv)).value)
    decreases fuel, o, 3
  {
    var each := Get(o, "items").value;
    var every := CompileArray(o, p, depth, csv).value.head;
    EvalFirst(table, every, NoClauses, env, v, fuel);
    if v.JsArray? { ItemsExact(table, defs, o, each, depth, csv, v.items, env, fuel); }
  }

  lemma {:induction false} ItemsExact(table: map<string, Guard>, defs: Defs, o: Members, each: Json, depth: nat,
                                      csv: bool,
                                      items: Values, env: Env, fuel: nat)
    requires Linked(table, defs) && (o decreases to each)
    requires Compile(each, Local(ItemVar(depth)), depth + 1, csv).Some?
    requires CallsWithin(Compile(each, Local(ItemVar(depth)), depth + 1, csv).value, table.Keys)
    requires ItemsMeaning(defs, o, each, items, fuel, AsWire(csv)).Some?
    ensures EvalItems(table, Compile(each, Local(ItemVar(depth)), depth + 1, csv).value, depth, items, env, fuel) ==
            Yields(ItemsMeaning(defs, o, each, items, fuel, AsWire(csv)).value)
    decreases fuel, o, 2, items
  {
    match items
    case NoValues =>
    case More(head, tail) =>
      var inner := env[ItemVar(depth) := head];
      assert At(Local(ItemVar(depth)), inner) == Some(head);
      Exact(table, defs, each, Local(ItemVar(depth)), depth + 1, csv, inner, head, fuel);
      ItemsExact(table, defs, o, each, depth, csv, tail, env, fuel);
    case Hole(tail) => ItemsExact(table, defs, o, each, depth, csv, tail, env, fuel);
  }

  lemma {:induction false} ObjectExact(table: map<string, Guard>, defs: Defs, o: Members, p: Place, depth: nat,
                                       csv: bool,
                                       env: Env, v: Value, fuel: nat)
    requires Linked(table, defs)
    requires CompileObject(o, p, depth, csv).Some? && ClausesWithin(CompileObject(o, p, depth, csv).value, table.Keys)
    requires At(p, env) == Some(v)
    requires ObjectMeaning(defs, o, v, fuel, AsWire(csv)).Some?
    ensures EvalAll(table, CompileObject(o, p, depth, csv).value, env, fuel) ==
            Yields(ObjectMeaning(defs, o, v, fuel, AsWire(csv)).value)
    decreases fuel, o, 3
  {
    var all := PropertiesOf(o);
    var tags := CompileProperties(o, all, all, p, depth, csv, true).value;
    var others := CompileProperties(o, all, all, p, depth, csv, false).value;
    var rest := CompileAdditional(o, all, p, depth, csv).value;
    EvalFirst(table, WireObject(p), Then(tags, Then(others, rest)), env, v, fuel);
    if v.JsObject? {
      EvalThen(table, tags, Then(others, rest), env, fuel);
      EvalThen(table, others, rest, env, fuel);
      WithinThen(tags, Then(others, rest), table.Keys);
      WithinThen(others, rest, table.Keys);
      PropertiesExact(table, defs, o, all, p, depth, csv, true, env, v.fields, fuel);
      PropertiesExact(table, defs, o, all, p, depth, csv, false, env, v.fields, fuel);
      AdditionalExact(table, defs, o, p, depth, csv, env, v.fields, fuel);
      ObjectSplits(defs, o, v.fields, fuel, AsWire(csv));
    }
  }

  lemma {:induction false} PropertiesExact(table: map<string, Guard>, defs: Defs, o: Members, rest: Members, p: Place,
                                           depth: nat,
                                           csv: bool, tagged: bool, env: Env, fields: Fields, fuel: nat)
    requires Linked(table, defs)
    requires CompileProperties(o, PropertiesOf(o), rest, p, depth, csv, tagged).Some?
    requires ClausesWithin(CompileProperties(o, PropertiesOf(o), rest, p, depth, csv, tagged).value, table.Keys)
    requires At(p, env) == Some(JsObject(fields))
    requires FieldsMeaning(defs, o, fields, fields, fuel, AsWire(csv)).Some?
    ensures EvalAll(table, CompileProperties(o, PropertiesOf(o), rest, p, depth, csv, tagged).value, env, fuel) ==
            Yields(PropsOk(defs, o, rest, fields, fuel, AsWire(csv), tagged))
    decreases fuel, o, 2, rest
  {
    if rest.NoMembers? {
    } else {
      var here := CompileProperty(o, PropertiesOf(o), rest.name, p, depth, csv, tagged).value;
      var more := CompileProperties(o, PropertiesOf(o), rest.rest, p, depth, csv, tagged).value;
      EvalThen(table, here, more, env, fuel);
      WithinThen(here, more, table.Keys);
      PropertyExact(table, defs, o, rest.name, p, depth, csv, tagged, env, fields, fuel);
      PropertiesExact(table, defs, o, rest.rest, p, depth, csv, tagged, env, fields, fuel);
    }
  }

  lemma {:induction false} PropertyExact(table: map<string, Guard>, defs: Defs, o: Members, name: string, p: Place,
                                         depth: nat,
                                         csv: bool, tagged: bool, env: Env, fields: Fields, fuel: nat)
    requires Linked(table, defs)
    requires CompileProperty(o, PropertiesOf(o), name, p, depth, csv, tagged).Some?
    requires ClausesWithin(CompileProperty(o, PropertiesOf(o), name, p, depth, csv, tagged).value, table.Keys)
    requires At(p, env) == Some(JsObject(fields))
    requires FieldsMeaning(defs, o, fields, fields, fuel, AsWire(csv)).Some?
    ensures EvalAll(table, CompileProperty(o, PropertiesOf(o), name, p, depth, csv, tagged).value, env, fuel) ==
            Yields(InTurn(o, name, tagged) ==> PropOk(defs, o, name, fields, fuel, AsWire(csv)))
    decreases fuel, o, 1
  {
    if InTurn(o, name, tagged) {
      var child, key := Get(PropertiesOf(o), name).value, Encode(name);
      var g := Compile(child, Prop(p, key), depth + 1, csv).value;
      var required := IsRequired(RequiredOf(o), name);
      PropertyCalls(p, key, required, g, table.Keys);
      EvalProperty(table, p, key, required, g, env, fields, fuel);
      if Own(fields, key).Some? { ChildExact(table, defs, o, name, p, depth, csv, env, fields, fuel); }
    }
  }

  lemma {:induction false} ChildExact(table: map<string, Guard>, defs: Defs, o: Members, name: string, p: Place,
                                      depth: nat,
                                      csv: bool, env: Env, fields: Fields, fuel: nat)
    requires Linked(table, defs)
    requires Get(PropertiesOf(o), name).Some? && Own(fields, Encode(name)).Some?
    requires var g := Compile(Get(PropertiesOf(o), name).value, Prop(p, Encode(name)), depth + 1, csv);
             g.Some? && CallsWithin(g.value, table.Keys)
    requires At(p, env) == Some(JsObject(fields))
    requires FieldsMeaning(defs, o, fields, fields, fuel, AsWire(csv)).Some?
    ensures Eval(table, Compile(Get(PropertiesOf(o), name).value, Prop(p, Encode(name)), depth + 1, csv).value, env,
        fuel) ==
            Yields(Meaning(defs, Get(PropertiesOf(o), name).value, Own(fields, Encode(name)).value, fuel,
                AsWire(csv)) == Some(true))
    decreases fuel, o, 0
  {
    DeclaredMeaning(defs, o, name, fields, fuel, AsWire(csv));
    Exact(table, defs, Get(PropertiesOf(o), name).value, Prop(p, Encode(name)), depth + 1, csv, env,
          Own(fields, Encode(name)).value, fuel);
  }

  lemma DeclaredMeaning(defs: Defs, o: Members, name: string, fields: Fields, fuel: nat, how: Reading)
    requires FieldsMeaning(defs, o, fields, fields, fuel, how).Some?
    requires Get(PropertiesOf(o), name).Some? && Own(fields, Encode(name)).Some?
    ensures Meaning(defs, Get(PropertiesOf(o), name).value, Own(fields, Encode(name)).value, fuel, how).Some?
  {
    DeclaredField(defs, o, name, fields, fuel, how);
  }

  lemma PropertyCalls(p: Place, key: Text, required: bool, g: Guard, names: set<string>)
    ensures ClausesWithin(PropertyClauses(p, key, required, g), names) <==> CallsWithin(g, names)
  {
    assert ClausesWithin(One(g), names) <==> CallsWithin(g, names);
  }

  /** A property clause: presence when required, the child guard when present; `true` needs no clause. */
  lemma EvalProperty(table: map<string, Guard>, p: Place, key: Text, required: bool, g: Guard, env: Env, fields: Fields,
                     fuel: nat)
    requires At(p, env) == Some(JsObject(fields))
    ensures EvalAll(table, PropertyClauses(p, key, required, g), env, fuel) ==
            if Own(fields, key).None? then Yields(!required) else Eval(table, g, env, fuel)
  {
    var v := JsObject(fields);
    if required {
      EvalFirst(table, Has(p, key), if g.Always? then NoClauses else One(g), env, v, fuel);
      EvalOne(table, g, env, fuel);
    } else if !g.Always? {
      EvalFirst(table, Unless(p, key, g), NoClauses, env, v, fuel);
    }
  }

  lemma {:induction false} AdditionalExact(table: map<string, Guard>, defs: Defs, o: Members, p: Place, depth: nat,
                                           csv: bool,
                                           env: Env, fields: Fields, fuel: nat)
    requires Linked(table, defs)
    requires CompileAdditional(o, PropertiesOf(o), p, depth, csv).Some?
    requires ClausesWithin(CompileAdditional(o, PropertiesOf(o), p, depth, csv).value, table.Keys)
    requires At(p, env) == Some(JsObject(fields))
    requires FieldsMeaning(defs, o, fields, fields, fuel, AsWire(csv)).Some?
    ensures EvalAll(table, CompileAdditional(o, PropertiesOf(o), p, depth, csv).value, env, fuel) ==
            Yields(RestOk(defs, o, fields, fields, fuel, AsWire(csv)))
    decreases fuel, o, 2
  {
    var all, v := PropertiesOf(o), JsObject(fields);
    OwnedBySelf(fields);
    match Get(o, "additionalProperties")
    case None => OpenRest(defs, o, fields, fields, fuel, AsWire(csv));
    case Some(additional) =>
      if additional.Bool? {
        if additional.b {
          OpenRest(defs, o, fields, fields, fuel, AsWire(csv));
        } else {
          ClosedRest(defs, o, fields, fields, fuel, AsWire(csv));
          EvalFirst(table, KeysAmong(p, all), NoClauses, env, v, fuel);
        }
      } else {
        TypedRestExact(table, defs, o, additional, p, depth, csv, env, fields, fuel);
      }
  }

  lemma {:induction false} TypedRestExact(table: map<string, Guard>, defs: Defs, o: Members, additional: Json, p: Place,
                                          depth: nat,
                                          csv: bool, env: Env, fields: Fields, fuel: nat)
    requires Linked(table, defs)
    requires Get(o, "additionalProperties") == Some(additional) && additional.Obj?
    requires CompileAdditional(o, PropertiesOf(o), p, depth, csv).Some?
    requires ClausesWithin(CompileAdditional(o, PropertiesOf(o), p, depth, csv).value, table.Keys)
    requires At(p, env) == Some(JsObject(fields))
    requires Owned(fields, fields) && FieldsMeaning(defs, o, fields, fields, fuel, AsWire(csv)).Some?
    ensures EvalAll(table, CompileAdditional(o, PropertiesOf(o), p, depth, csv).value, env, fuel) ==
            Yields(RestOk(defs, o, fields, fields, fuel, AsWire(csv)))
    decreases fuel, o, 1
  {
    var g := Compile(additional, Local(MemberVar(depth)), depth + 1, csv).value;
    MembersExact(table, defs, o, additional, depth, csv, fields, fields, env, fuel);
    if g.Always? {
      AlwaysMembers(table, PropertiesOf(o), depth, fields, fields, env, fuel);
    } else {
      EvalFirst(table, MembersAre(p, PropertiesOf(o), depth, g), NoClauses, env, JsObject(fields), fuel);
    }
  }

  lemma {:induction false} OpenRest(defs: Defs, o: Members, keys: Fields, fields: Fields, fuel: nat, how: Reading)
    requires Get(o, "additionalProperties") in {None, Some(Bool(true))}
    ensures RestOk(defs, o, keys, fields, fuel, how)
    decreases keys
  {
    if keys.NoFields? {
    } else {
      NamedIsDeclared(PropertiesOf(o), keys.key);
      OpenRest(defs, o, keys.rest, fields, fuel, how);
    }
  }

  lemma {:induction false} ClosedRest(defs: Defs, o: Members, keys: Fields, fields: Fields, fuel: nat, how: Reading)
    requires Get(o, "additionalProperties") == Some(Bool(false))
    requires Owned(keys, fields)
    ensures RestOk(defs, o, keys, fields, fuel, how) <==> AllNamed(PropertiesOf(o), keys)
    decreases keys
  {
    if keys.NoFields? {
    } else {
      NamedIsDeclared(PropertiesOf(o), keys.key);
      ClosedRest(defs, o, keys.rest, fields, fuel, how);
    }
  }

  /** Every key of the first list is a key of the second. */
  predicate Owned(keys: Fields, fields: Fields) {
    keys.Field? ==> Own(fields, keys.key).Some? && Owned(keys.rest, fields)
  }

  lemma {:induction false} OwnedByMore(keys: Fields, k: Text, v: Value, fields: Fields)
    requires Owned(keys, fields)
    ensures Owned(keys, Field(k, v, fields))
  {
    if keys.NoFields? {
    } else {
      OwnedByMore(keys.rest, k, v, fields);
    }
  }

  lemma {:induction false} OwnedBySelf(fields: Fields)
    ensures Owned(fields, fields)
  {
    if fields.NoFields? {
    } else {
      OwnedBySelf(fields.rest);
      OwnedByMore(fields.rest, fields.key, fields.value, fields.rest);
    }
  }

  lemma {:induction false} MembersExact(table: map<string, Guard>, defs: Defs, o: Members, additional: Json, depth: nat,
                                        csv: bool,
                                        keys: Fields, fields: Fields, env: Env, fuel: nat)
    requires Linked(table, defs)
    requires Get(o, "additionalProperties") == Some(additional) && additional.Obj?
    requires Compile(additional, Local(MemberVar(depth)), depth + 1, csv).Some?
    requires CallsWithin(Compile(additional, Local(MemberVar(depth)), depth + 1, csv).value, table.Keys)
    requires Owned(keys, fields) && FieldsMeaning(defs, o, fields, fields, fuel, AsWire(csv)).Some?
    ensures EvalMembers(table, Compile(additional, Local(MemberVar(depth)), depth + 1, csv).value, PropertiesOf(o),
        depth,
                        keys, fields, env, fuel) == Yields(RestOk(defs, o, keys, fields, fuel, AsWire(csv)))
    decreases fuel, o, 0, keys
  {
    if keys.NoFields? {
    } else {
      var k, v := keys.key, Own(fields, keys.key).value;
      NamedIsDeclared(PropertiesOf(o), k);
      FieldDecided(defs, o, fields, fields, k, fuel, AsWire(csv));
      if !Named(PropertiesOf(o), k) {
        var inner := env[MemberVar(depth) := v];
        assert At(Local(MemberVar(depth)), inner) == Some(v);
        Exact(table, defs, additional, Local(MemberVar(depth)), depth + 1, csv, inner, v, fuel);
      }
      MembersExact(table, defs, o, additional, depth, csv, keys.rest, fields, env, fuel);
    }
  }

  lemma {:induction false} AlwaysMembers(table: map<string, Guard>, names: Members, level: nat, keys: Fields,
                                         fields: Fields,
                                         env: Env, fuel: nat)
    requires Owned(keys, fields)
    ensures EvalMembers(table, Always, names, level, keys, fields, env, fuel) == Yields(true)
    decreases keys
  {
    if keys.NoFields? {
    } else {
      AlwaysMembers(table, names, level, keys.rest, fields, env, fuel);
    }
  }
}
