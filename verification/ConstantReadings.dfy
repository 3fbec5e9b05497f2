/**
 The two readings of a schema's constants: where they coincide, and exactly which constants `===` compares as JSON
 equality does.
 */
module ConstantReadings {
  import opened Constants
  import opened ExpansionLaws
  import opened GuardExactness
  import opened GuardLinking
  import opened Guards
  import opened Json
  import opened Numbers
  import opened Options
  import opened SchemaMeaning
  import opened Unicode
  import opened Values

  // ----- comparable constants read alike -----

  /** These definitions, closed under references, have comparable constants. */
  ghost predicate ComparableWithin(defs: Defs, names: set<string>) {
    forall n | n in names && n in defs :: ComparableConsts(defs[n]) && Refs(defs[n]) <= names
  }

  /** With comparable constants, in the schema and in all it refers to, both readings give one answer. */
  lemma {:induction false} ReadingsCoincide(defs: Defs, names: set<string>, s: Json, v: Value, fuel: nat, csv: bool)
    requires ComparableWithin(defs, names) && ComparableConsts(s) && Refs(s) <= names
    ensures Meaning(defs, s, v, fuel, AsJson(csv)) == Meaning(defs, s, v, fuel, AsWire(csv))
    decreases fuel, s, 0
  {
    if s.Obj? {
      match Get(s.members, "$ref")
      case Some(reference) =>
        if fuel > 0 && RefName(reference).Some? && RefName(reference).value in defs {
          ReadingsCoincide(defs, names, defs[RefName(reference).value], v, fuel - 1, csv);
        }
      case None => NodesCoincide(defs, names, s.members, v, fuel, csv);
    }
  }

  lemma {:induction false} NodesCoincide(defs: Defs, names: set<string>, o: Members, v: Value, fuel: nat, csv: bool)
    requires ComparableWithin(defs, names) && ComparableNode(o) && KeywordRefs(o) <= names
    ensures NodeMeaning(defs, o, v, fuel, AsJson(csv)) == NodeMeaning(defs, o, v, fuel, AsWire(csv))
    decreases fuel, o, 5
  {
    if Get(o, "const").Some? { ComparesEqual(Get(o, "const").value, v); }
    UnionsCoincide(defs, names, o, v, fuel, csv);
    TypesCoincide(defs, names, o, v, fuel, csv);
  }

  lemma {:induction false} UnionsCoincide(defs: Defs, names: set<string>, o: Members, v: Value, fuel: nat, csv: bool)
    requires ComparableWithin(defs, names) && ComparableNode(o) && KeywordRefs(o) <= names
    ensures UnionMeaning(defs, o, v, fuel, AsJson(csv)) == UnionMeaning(defs, o, v, fuel, AsWire(csv))
    decreases fuel, o, 4
  {
    match Get(o, "oneOf")
    case Some(Arr(options)) =>
      RefsAt(o, "oneOf");
      OptionsCoincide(defs, names, options, v, fuel, csv);
    case _ =>
  }

  lemma {:induction false} OptionsCoincide(defs: Defs, names: set<string>, options: Items, v: Value, fuel: nat,
                                           csv: bool)
    requires ComparableWithin(defs, names) && ComparableOptions(options) && BranchRefs(options) <= names
    ensures Matching(defs, options, v, fuel, AsJson(csv)) == Matching(defs, options, v, fuel, AsWire(csv))
    decreases fuel, options, 0
  {
    match options
    case NoItems =>
    case Item(head, tail) =>
      ReadingsCoincide(defs, names, head, v, fuel, csv);
      OptionsCoincide(defs, names, tail, v, fuel, csv);
  }

  lemma {:induction false} TypesCoincide(defs: Defs, names: set<string>, o: Members, v: Value, fuel: nat, csv: bool)
    requires ComparableWithin(defs, names) && ComparableNode(o) && KeywordRefs(o) <= names
    ensures TypeMeaning(defs, o, v, fuel, AsJson(csv)) == TypeMeaning(defs, o, v, fuel, AsWire(csv))
    decreases fuel, o, 4
  {
    match KindOf(o)
    case ArrayKind =>
      if v.JsArray? && Get(o, "items").Some? {
        RefsAt(o, "items");
        ElementsCoincide(defs, names, o, Get(o, "items").value, v.items, fuel, csv);
      }
      assert ArrayMeaning(defs, o, v, fuel, AsJson(csv)) == ArrayMeaning(defs, o, v, fuel, AsWire(csv));
    case ObjectKind =>
      if v.JsObject? { FieldsCoincide(defs, names, o, v.fields, v.fields, fuel, csv); }
      assert ObjectMeaning(defs, o, v, fuel, AsJson(csv)) == ObjectMeaning(defs, o, v, fuel, AsWire(csv));
    case _ =>
  }

  lemma {:induction false} ElementsCoincide(defs: Defs, names: set<string>, o: Members, each: Json, items: Values,
                                            fuel: nat,
                                            csv: bool)
    requires ComparableWithin(defs, names) && ComparableConsts(each) && Refs(each) <= names && (o decreases to each)
    ensures ItemsMeaning(defs, o, each, items, fuel, AsJson(csv)) ==
            ItemsMeaning(defs, o, each, items, fuel, AsWire(csv))
    decreases fuel, o, 3, items
  {
    match items
    case NoValues =>
    case More(head, tail) =>
      ReadingsCoincide(defs, names, each, head, fuel, csv);
      ElementsCoincide(defs, names, o, each, tail, fuel, csv);
    case Hole(tail) => ElementsCoincide(defs, names, o, each, tail, fuel, csv);
  }

  lemma {:induction false} FieldsCoincide(defs: Defs, names: set<string>, o: Members, keys: Fields, fields: Fields,
                                          fuel: nat,
                                          csv: bool)
    requires ComparableWithin(defs, names) && ComparableNode(o) && KeywordRefs(o) <= names
    ensures FieldsMeaning(defs, o, keys, fields, fuel, AsJson(csv)) ==
            FieldsMeaning(defs, o, keys, fields, fuel, AsWire(csv))
    decreases fuel, o, 3, keys
  {
    match keys
    case NoFields =>
    case Field(key, _, rest) =>
      FieldCoincides(defs, names, o, key, fields, fuel, csv);
      FieldsCoincide(defs, names, o, rest, fields, fuel, csv);
  }

  lemma {:induction false} FieldCoincides(defs: Defs, names: set<string>, o: Members, key: Text, fields: Fields,
                                          fuel: nat,
                                          csv: bool)
    requires ComparableWithin(defs, names) && ComparableNode(o) && KeywordRefs(o) <= names
    ensures FieldMeaning(defs, o, key, fields, fuel, AsJson(csv)) ==
            FieldMeaning(defs, o, key, fields, fuel, AsWire(csv))
    decreases fuel, o, 2
  {
    var all, additional := PropertiesOf(o), Get(o, "additionalProperties");
    if Own(fields, key).Some? {
      var v := Own(fields, key).value;
      if PropertyFor(all, key).Some? {
        var name := NameOf(all, key);
        ComparableChild(all, name);
        RefsAt(o, "properties");
        ChildRefsAt(all, name);
        ReadingsCoincide(defs, names, Get(all, name).value, v, fuel, csv);
      } else if additional.Some? && additional.value.Obj? {
        RefsAt(o, "additionalProperties");
        ReadingsCoincide(defs, names, additional.value, v, fuel, csv);
      }
    }
  }

  // ----- where `===` is not JSON equality -----

  function ConstSchema(c: Json): Json { Obj(Member("const", c, NoMembers)) }

  function ConstGuard(c: Json): Guard { All(One(Same(Local(Root), c))) }

  lemma NothingElse(c: Json, name: string)
    requires name != "" && name[0] != 'c'
    ensures Get(Member("const", c, NoMembers), name).None?
  {
    assert "const"[0] == 'c';
  }

  lemma ConstantCompiles(c: Json, csv: bool)
    ensures Compile(ConstSchema(c), Local(Root), 0, csv) == Some(ConstGuard(c))
  {
    var o, p := Member("const", c, NoMembers), Local(Root);
    NothingElse(c, "$ref");
    NothingElse(c, "oneOf");
    NothingElse(c, "type");
    assert CompileUnion(o, p, 0, csv) == Some(NoClauses) && CompileType(o, p, 0, csv) == Some(NoClauses);
    assert Then(One(Same(p, c)), Then(NoClauses, NoClauses)) == One(Same(p, c));
    assert CompileNode(o, p, 0, csv) == Some(ConstGuard(c));
  }

  lemma ConstantVerdicts(c: Json, v: Value, csv: bool)
    ensures Eval(map[], ConstGuard(c), map[Root := v], 0) == Yields(Identical(c, v))
    ensures Meaning(map[], ConstSchema(c), v, 0, AsJson(csv)) == Some(SameJson(c, v))
  {
    NothingElse(c, "$ref");
    NothingElse(c, "oneOf");
    NothingElse(c, "type");
    assert NodeMeaning(map[], Member("const", c, NoMembers), v, 0, AsJson(csv)) == Some(SameJson(c, v));
    EvalFirst(map[], Same(Local(Root), c), NoClauses, map[Root := v], v, 0);
  }

  ghost predicate ExactOnAll(c: Json, csv: bool) {
    forall v :: Eval(map[], ConstGuard(c), map[Root := v], 0) ==
        Yields(Meaning(map[], ConstSchema(c), v, 0, AsJson(csv)) == Some(true))
  }

  /**
   The guard of a constant decides JSON equality on all values if and only if the constant is comparable: a scalar that
   JavaScript holds as written, or a container with a number that it cannot hold.
   */
  lemma ConstantsMustBeComparable(c: Json, csv: bool)
    ensures Compile(ConstSchema(c), Local(Root), 0, csv) == Some(ConstGuard(c))
    ensures Comparable(c) <==> ExactOnAll(c, csv)
  {
    ConstantCompiles(c, csv);
    if Comparable(c) {
      forall v ensures Eval(map[], ConstGuard(c), map[Root := v], 0)
                       == Yields(Meaning(map[], ConstSchema(c), v, 0, AsJson(csv)) == Some(true))
      {
        ConstantVerdicts(c, v, csv);
        ComparesEqual(c, v);
      }
    } else {
      ConstantVerdicts(c, ValueOf(c), csv);
      if !IsScalar(c) { ValueOfSame(c); }
    }
  }

  /** The guard of 2^53 + 1 accepts 2^53, which is another number. */
  lemma RoundedConstant(csv: bool)
    ensures Held(9007199254740992.0)
    ensures var c, v := Int(9007199254740993), JsNumber(9007199254740992.0);
            && Eval(map[], ConstGuard(c), map[Root := v], 0) == Yields(true)
            && Meaning(map[], ConstSchema(c), v, 0, AsJson(csv)) == Some(false)
  {
    FirstRounded();
    assert (9007199254740992.0).Floor == 9007199254740992;
    ConstantVerdicts(Int(9007199254740993), JsNumber(9007199254740992.0), csv);
  }

  /** The wire value that `===` finds nearest to a constant. */
  function ValueOf(c: Json): Value {
    match c
    case Null => JsNull
    case Bool(b) => JsBool(b)
    case Int(n) => NearestHeld(n); JsNumber(Nearest(n) as real)
    case Float(r, _) => JsNumber(r)
    case Str(s) => JsText(Encode(s))
    case Arr(items) => JsArray(ValuesOf(items))
    case Obj(m) => JsObject(FieldsOf(m))
  }

  function ValuesOf(items: Items): Values {
    match items
    case NoItems => NoValues
    case Item(head, tail) => More(ValueOf(head), ValuesOf(tail))
  }

  function FieldsOf(m: Members): Fields {
    match m
    case NoMembers => NoFields
    case Member(n, v, rest) => Field(Encode(n), ValueOf(v), FieldsOf(rest))
  }

  lemma {:induction false} ValueOfSame(c: Json)
    requires AllHeld(c)
    ensures SameJson(c, ValueOf(c))
  {
    match c
    case Arr(items) => ValuesOfSame(items);
    case Obj(m) => FieldsOfSame(m);
    case _ =>
  }

  lemma {:induction false} ValuesOfSame(items: Items)
    requires ItemsHeld(items)
    ensures SameItems(items, ValuesOf(items))
  {
    if items.NoItems? {
    } else {
      ValueOfSame(items.head);
      ValuesOfSame(items.tail);
    }
  }

  lemma {:induction false} FieldsOfSame(m: Members)
    requires MembersHeld(m)
    ensures SameMembers(m, FieldsOf(m))
  {
    if m.NoMembers? {
    } else {
      ValueOfSame(m.value);
      FieldsOfSame(m.rest);
    }
  }
}
