/** The main results on guards: exact on every value, the same in both forms, and never wider than the type. */
module GuardAgreement {
  import opened Constants
  import opened ConstantReadings
  import opened Json
  import opened Unicode
  import opened Values
  import opened SchemaMeaning
  import opened Guards
  import opened GuardExactness
  import opened GuardLinking
  import opened Expansion
  import opened ExpansionLaws
  import opened ExpansionMeaning
  import opened Types
  import opened TypeSoundness

  // ----- a guard whose calls are decided decides every value -----

  /** Following a reference to the definition decides the value. */
  predicate Answers(defs: Defs, n: string, v: Value, fuel: nat) {
    fuel > 0 && n in defs && Meaning(defs, defs[n], v, fuel - 1, AsWire(false)).Some?
  }

  ghost predicate Answered(defs: Defs, names: set<string>, fuel: nat) {
    forall n, v | n in names :: Answers(defs, n, v, fuel)
  }

  lemma {:induction false} Decided(defs: Defs, names: set<string>, s: Json, p: Place, depth: nat, csv: bool, v: Value,
                                   fuel: nat)
    requires Answered(defs, names, fuel)
    requires Compile(s, p, depth, csv).Some? && CallsWithin(Compile(s, p, depth, csv).value, names)
    ensures Meaning(defs, s, v, fuel, AsWire(csv)).Some?
    decreases s, 0
  {
    if Get(s.members, "$ref").Some? {
      assert Answers(defs, RefName(Get(s.members, "$ref").value).value, v, fuel);
    } else {
      NodeDecided(defs, names, s.members, p, depth, csv, v, fuel);
    }
  }

  lemma {:induction false} NodeDecided(defs: Defs, names: set<string>, o: Members, p: Place, depth: nat, csv: bool,
                                       v: Value, fuel: nat)
    requires Answered(defs, names, fuel)
    requires CompileNode(o, p, depth, csv).Some? && CallsWithin(CompileNode(o, p, depth, csv).value, names)
    ensures NodeMeaning(defs, o, v, fuel, AsWire(csv)).Some?
    decreases o, 4
  {
    var first, union, typed := CompileConst(o, p), CompileUnion(o, p, depth, csv).value,
        CompileType(o, p, depth, csv).value;
    WithinThen(first, Then(union, typed), names);
    WithinThen(union, typed, names);
    UnionDecided(defs, names, o, p, depth, csv, v, fuel);
    TypeDecided(defs, names, o, p, depth, csv, v, fuel);
  }

  lemma {:induction false} UnionDecided(defs: Defs, names: set<string>, o: Members, p: Place, depth: nat, csv: bool,
                                        v: Value, fuel: nat)
    requires Answered(defs, names, fuel)
    requires CompileUnion(o, p, depth, csv).Some? && ClausesWithin(CompileUnion(o, p, depth, csv).value, names)
    ensures UnionMeaning(defs, o, v, fuel, AsWire(csv)).Some?
    decreases o, 3
  {
    match Get(o, "oneOf")
    case Some(Arr(options)) => OptionsDecided(defs, names, options, p, depth, csv, v, fuel);
    case _ =>
  }

  lemma {:induction false} OptionsDecided(defs: Defs, names: set<string>, options: Items, p: Place, depth: nat,
                                          csv: bool, v: Value, fuel: nat)
    requires Answered(defs, names, fuel)
    requires CompileOptions(options, p, depth, csv).Some?
    requires ClausesWithin(CompileOptions(options, p, depth, csv).value, names)
    ensures Matching(defs, options, v, fuel, AsWire(csv)).Some?
    decreases options, 0
  {
    if options.NoItems? {
    } else {
      Decided(defs, names, options.head, p, depth + 1, csv, v, fuel);
      OptionsDecided(defs, names, options.tail, p, depth, csv, v, fuel);
    }
  }

  lemma {:induction false} TypeDecided(defs: Defs, names: set<string>, o: Members, p: Place, depth: nat, csv: bool,
                                       v: Value, fuel: nat)
    requires Answered(defs, names, fuel)
    requires CompileType(o, p, depth, csv).Some? && ClausesWithin(CompileType(o, p, depth, csv).value, names)
    ensures TypeMeaning(defs, o, v, fuel, AsWire(csv)).Some?
    decreases o, 3, 1
  {
    match KindOf(o)
    case ArrayKind => ArrayDecided(defs, names, o, p, depth, csv, v, fuel);
    case ObjectKind => ObjectDecided(defs, names, o, p, depth, csv, v, fuel);
    case _ =>
  }

  lemma {:induction false} ArrayDecided(defs: Defs, names: set<string>, o: Members, p: Place, depth: nat, csv: bool,
                                        v: Value, fuel: nat)
    requires Answered(defs, names, fuel)
    requires CompileArray(o, p, depth, csv).Some? && ClausesWithin(CompileArray(o, p, depth, csv).value, names)
    ensures ArrayMeaning(defs, o, v, fuel, AsWire(csv)).Some?
    decreases o, 3, 0
  {
    if v.JsArray? { ItemsDecided(defs, names, o, Get(o, "items").value, depth, csv, v.items, fuel); }
  }

  lemma {:induction false} ObjectDecided(defs: Defs, names: set<string>, o: Members, p: Place, depth: nat, csv: bool,
                                         v: Value, fuel: nat)
    requires Answered(defs, names, fuel)
    requires CompileObject(o, p, depth, csv).Some? && ClausesWithin(CompileObject(o, p, depth, csv).value, names)
    ensures ObjectMeaning(defs, o, v, fuel, AsWire(csv)).Some?
    decreases o, 3, 0
  {
    if v.JsObject? { FieldsDecided(defs, names, o, p, depth, csv, v.fields, v.fields, fuel); }
  }

  lemma {:induction false} ItemsDecided(defs: Defs, names: set<string>, o: Members, each: Json, depth: nat, csv: bool,
                                        items: Values, fuel: nat)
    requires Answered(defs, names, fuel)
    requires (o decreases to each) && Compile(each, Local(ItemVar(depth)), depth + 1, csv).Some?
    requires CallsWithin(Compile(each, Local(ItemVar(depth)), depth + 1, csv).value, names)
    ensures ItemsMeaning(defs, o, each, items, fuel, AsWire(csv)).Some?
    decreases o, 2, items
  {
    match items
    case NoValues =>
    case More(head, tail) =>
      Decided(defs, names, each, Local(ItemVar(depth)), depth + 1, csv, head, fuel);
      ItemsDecided(defs, names, o, each, depth, csv, tail, fuel);
    case Hole(tail) => ItemsDecided(defs, names, o, each, depth, csv, tail, fuel);
  }

  lemma {:induction false} FieldsDecided(defs: Defs, names: set<string>, o: Members, p: Place, depth: nat, csv: bool,
                                         keys: Fields, fields: Fields, fuel: nat)
    requires Answered(defs, names, fuel)
    requires CompileObject(o, p, depth, csv).Some? && ClausesWithin(CompileObject(o, p, depth, csv).value, names)
    ensures FieldsMeaning(defs, o, keys, fields, fuel, AsWire(csv)).Some?
    decreases o, 2, keys
  {
    if keys.NoFields? {
    } else {
      FieldDecidedHere(defs, names, o, p, depth, csv, keys.key, fields, fuel);
      FieldsDecided(defs, names, o, p, depth, csv, keys.rest, fields, fuel);
    }
  }

  lemma {:induction false} FieldDecidedHere(defs: Defs, names: set<string>, o: Members, p: Place, depth: nat, csv: bool,
                                            key: Text, fields: Fields, fuel: nat)
    requires Answered(defs, names, fuel)
    requires CompileObject(o, p, depth, csv).Some? && ClausesWithin(CompileObject(o, p, depth, csv).value, names)
    ensures FieldMeaning(defs, o, key, fields, fuel, AsWire(csv)).Some?
    decreases o, 1
  {
    var all := PropertiesOf(o);
    ObjectParts(names, o, p, depth, csv);
    if Own(fields, key).Some? {
      var v := Own(fields, key).value;
      if PropertyFor(all, key).Some? {
        var name := NameOf(all, key);
        var tagged := IsTag(Get(all, name).value);
        PropertyCompiled(names, o, all, name, p, depth, csv, tagged);
        Decided(defs, names, Get(all, name).value, Prop(p, Encode(name)), depth + 1, csv, v, fuel);
      } else if Get(o, "additionalProperties").Some? && Get(o, "additionalProperties").value.Obj? {
        Decided(defs, names, Get(o, "additionalProperties").value, Local(MemberVar(depth)), depth + 1, csv, v, fuel);
      }
    }
  }

  lemma ObjectParts(names: set<string>, o: Members, p: Place, depth: nat, csv: bool)
    requires CompileObject(o, p, depth, csv).Some? && ClausesWithin(CompileObject(o, p, depth, csv).value, names)
    ensures forall tagged :: ClausesWithin(CompileProperties(o, PropertiesOf(o), PropertiesOf(o), p, depth, csv,
        tagged).value, names)
    ensures ClausesWithin(CompileAdditional(o, PropertiesOf(o), p, depth, csv).value, names)
  {
    var all := PropertiesOf(o);
    var tags := CompileProperties(o, all, all, p, depth, csv, true).value;
    var others := CompileProperties(o, all, all, p, depth, csv, false).value;
    var rest := CompileAdditional(o, all, p, depth, csv).value;
    WithinThen(tags, Then(others, rest), names);
    WithinThen(others, rest, names);
  }

  lemma {:induction false} PropertyCompiled(names: set<string>, o: Members, rest: Members, name: string, p: Place,
                                            depth: nat, csv: bool, tagged: bool)
    requires CompileProperties(o, PropertiesOf(o), rest, p, depth, csv, tagged).Some?
    requires ClausesWithin(CompileProperties(o, PropertiesOf(o), rest, p, depth, csv, tagged).value, names)
    requires Get(rest, name).Some? && InTurn(o, name, tagged)
    ensures var g := Compile(Get(PropertiesOf(o), name).value, Prop(p, Encode(name)), depth + 1, csv);
            g.Some? && CallsWithin(g.value, names)
    decreases rest
  {
    var all := PropertiesOf(o);
    var here := CompileProperty(o, all, rest.name, p, depth, csv, tagged).value;
    WithinThen(here, CompileProperties(o, all, rest.rest, p, depth, csv, tagged).value, names);
    if rest.name == name {
      var g := Compile(Get(all, name).value, Prop(p, Encode(name)), depth + 1, csv).value;
      PropertyCalls(p, Encode(name), IsRequired(RequiredOf(o), name), g, names);
    } else {
      PropertyCompiled(names, o, rest.rest, name, p, depth, csv, tagged);
    }
  }

  lemma {:induction false} CallsBoth(g: Guard, a: set<string>, b: set<string>)
    requires CallsWithin(g, a) && CallsWithin(g, b)
    ensures CallsWithin(g, a * b)
  {
    match g
    case All(clauses) => ClausesBoth(clauses, a, b);
    case ExactlyOne(options) => ClausesBoth(options, a, b);
    case Every(_, _, _, _, each) => CallsBoth(each, a, b);
    case Unless(_, _, inner) => CallsBoth(inner, a, b);
    case MembersAre(_, _, _, inner) => CallsBoth(inner, a, b);
    case _ =>
  }

  lemma {:induction false} ClausesBoth(clauses: Clauses, a: set<string>, b: set<string>)
    requires ClausesWithin(clauses, a) && ClausesWithin(clauses, b)
    ensures ClausesWithin(clauses, a * b)
  {
    match clauses
    case NoClauses =>
    case Clause(head, tail) =>
      CallsBoth(head, a, b);
      ClausesBoth(tail, a, b);
  }

  /** Linked guards of an expandable schema decide every value within its reference nesting. */
  lemma {:induction false} LinkedDecides(defs: Defs, table: map<string, Guard>, s: Json, v: Value, fuel: nat)
    requires Linked(table, defs)
    requires Schema(defs, {}, s).Planned? && Schema(defs, {}, s).bill.span.refs <= fuel
    requires Compile(s, Local(Root), 0, false).Some? && CallsWithin(Compile(s, Local(Root), 0, false).value, table.Keys)
    ensures Meaning(defs, s, v, fuel, AsWire(false)).Some?
    decreases fuel
  {
    var names := Refs(s) * table.Keys;
    CallsAreRefs(s, Local(Root), 0, false, Refs(s));
    CallsBoth(Compile(s, Local(Root), 0, false).value, Refs(s), table.Keys);
    forall n, w | n in names ensures Answers(defs, n, w, fuel) {
      ReferencePlans(defs, s, n);
      LinkedDecides(defs, table, defs[n], w, fuel - 1);
    }
    Decided(defs, names, s, Local(Root), 0, false, v, fuel);
  }

  /** What an expandable schema refers to can be expanded, with less reference nesting. */
  lemma ReferencePlans(defs: Defs, s: Json, n: string)
    requires Schema(defs, {}, s).Planned? && n in Refs(s)
    ensures n in defs && Schema(defs, {}, defs[n]).Planned?
    ensures Schema(defs, {}, defs[n]).bill.span.refs < Schema(defs, {}, s).bill.span.refs
  {
    PlanRanks(defs, {}, s);
    PlanNames(defs, {}, s);
    assert RankOf(defs, n) < Schema(defs, {}, s).bill.span.refs;
  }

  // ----- reference-free schemas -----

  lemma {:induction false} NoRefs(s: Json)
    requires RefFree(s)
    ensures Refs(s) == {}
  {
    NoKeywordRefs(s.members);
  }

  lemma {:induction false} NoKeywordRefs(m: Members)
    requires RefFreeKeywords(m)
    ensures KeywordRefs(m) == {}
  {
    if m.NoMembers? {
    } else {
      NoKeywordRefs(m.rest);
      if m.name == "properties" {
        NoChildRefs(m.value.members);
      } else if m.name == "items" || (m.name == "additionalProperties" && m.value.Obj?) {
        NoRefs(m.value);
      } else if m.name == "oneOf" {
        NoBranchRefs(m.value.items);
      }
    }
  }

  lemma {:induction false} NoChildRefs(m: Members)
    requires RefFreeChildren(m)
    ensures ChildRefs(m) == {}
  {
    if m.NoMembers? {
    } else {
      NoRefs(m.value);
      NoChildRefs(m.rest);
    }
  }

  lemma {:induction false} NoBranchRefs(items: Items)
    requires RefFreeBranches(items)
    ensures BranchRefs(items) == {}
  {
    if items.NoItems? {
    } else {
      NoRefs(items.head);
      NoBranchRefs(items.tail);
    }
  }

  // ----- the theorems -----

  /** On a reference-free schema the guard yields the wire reading on every value whatsoever. */
  lemma GuardReads(s: Json, csv: bool, v: Value)
    requires RefFree(s) && Compile(s, Local(Root), 0, csv).Some?
    ensures Meaning(map[], s, v, 0, AsWire(csv)).Some?
    ensures Eval(map[], Compile(s, Local(Root), 0, csv).value, map[Root := v], 0) ==
            Yields(Meaning(map[], s, v, 0, AsWire(csv)).value)
  {
    NoRefs(s);
    CallsAreRefs(s, Local(Root), 0, csv, {});
    Decided(map[], {}, s, Local(Root), 0, csv, v, 0);
    var table: map<string, Guard> := map[];
    assert table.Keys == {};
    Exact(table, map[], s, Local(Root), 0, csv, map[Root := v], v, 0);
  }

  /** With comparable constants that is the JSON reading. */
  lemma GuardExact(s: Json, csv: bool, v: Value)
    requires RefFree(s) && ComparableConsts(s) && Compile(s, Local(Root), 0, csv).Some?
    ensures Meaning(map[], s, v, 0, AsJson(csv)).Some?
    ensures Eval(map[], Compile(s, Local(Root), 0, csv).value, map[Root := v], 0) ==
            Yields(Meaning(map[], s, v, 0, AsJson(csv)).value)
  {
    GuardReads(s, csv, v);
    NoRefs(s);
    ReadingsCoincide(map[], {}, s, v, 0, csv);
  }

  /**
   The guard that calls one function per definition and the guard of the expanded schema agree on every value,
   whenever both render and whatever their constants are.
   */
  lemma BothFormsAgree(defs: Defs, table: map<string, Guard>, s: Json, v: Value, fuel: nat)
    requires Schema(defs, {}, s).Planned? && Schema(defs, {}, s).bill.span.refs <= fuel
    requires Linked(table, defs)
    requires Compile(s, Local(Root), 0, false).Some?
    requires CallsWithin(Compile(s, Local(Root), 0, false).value, table.Keys)
    requires Compile(Schema(defs, {}, s).out, Local(Root), 0, false).Some?
    ensures Meaning(defs, s, v, fuel, AsWire(false)).Some?
    ensures Eval(table, Compile(s, Local(Root), 0, false).value, map[Root := v], fuel) ==
            Eval(map[], Compile(Schema(defs, {}, s).out, Local(Root), 0, false).value, map[Root := v], 0) ==
            Yields(Meaning(defs, s, v, fuel, AsWire(false)).value)
  {
    var out := Schema(defs, {}, s).out;
    PlanRefFree(defs, {}, s);
    MeaningPreserved(defs, {}, s, v, fuel, AsWire(false));
    GuardReads(out, false, v);
    Exact(table, defs, s, Local(Root), 0, false, map[Root := v], v, fuel);
  }

  /** The guards emitted for a complete set of definitions yield the wire reading of every root, on every value. */
  lemma EmittedReads(defs: Defs, roots: seq<Json>, names: set<string>, root: Json, v: Value, fuel: nat)
    requires Complete(defs, roots, names) && root in roots
    requires forall n | n in names :: Compile(defs[n], Local(Root), 0, false).Some?
    requires Schema(defs, {}, root).Planned? && Schema(defs, {}, root).bill.span.refs <= fuel
    requires Compile(root, Local(Root), 0, false).Some?
    ensures Meaning(defs, root, v, fuel, AsWire(false)).Some?
    ensures Eval(Emit(defs, names), Compile(root, Local(Root), 0, false).value, map[Root := v], fuel) ==
            Yields(Meaning(defs, root, v, fuel, AsWire(false)).value)
  {
    var table := Emit(defs, names);
    EmittedLink(defs, roots, names, root, Local(Root), 0);
    LinkedDecides(defs, table, root, v, fuel);
    Exact(table, defs, root, Local(Root), 0, false, map[Root := v], v, fuel);
  }

  /** With comparable constants in the root and in what it reaches, they decide it exactly. */
  lemma EmittedExact(defs: Defs, roots: seq<Json>, names: set<string>, root: Json, v: Value, fuel: nat)
    requires Complete(defs, roots, names) && root in roots
    requires forall n | n in names :: Compile(defs[n], Local(Root), 0, false).Some?
    requires Schema(defs, {}, root).Planned? && Schema(defs, {}, root).bill.span.refs <= fuel
    requires Compile(root, Local(Root), 0, false).Some?
    requires ComparableConsts(root)
    requires forall n | n in Schema(defs, {}, root).bill.names && n in defs :: ComparableConsts(defs[n])
    ensures Meaning(defs, root, v, fuel, AsJson(false)).Some?
    ensures Eval(Emit(defs, names), Compile(root, Local(Root), 0, false).value, map[Root := v], fuel) ==
            Yields(Meaning(defs, root, v, fuel, AsJson(false)).value)
  {
    EmittedReads(defs, roots, names, root, v, fuel);
    PlanNames(defs, {}, root);
    ReadingsCoincide(defs, Schema(defs, {}, root).bill.names, root, v, fuel, false);
  }

  /** A value the guard accepts inhabits the rendered type, also where `===` rounds a constant. */
  lemma GuardImpliesType(defs: Defs, table: map<string, Guard>, tys: map<string, Ty>, s: Json, v: Value, fuel: nat)
    requires Schema(defs, {}, s).Planned? && Schema(defs, {}, s).bill.span.refs <= fuel
    requires Linked(table, defs)
    requires Compile(s, Local(Root), 0, false).Some?
    requires CallsWithin(Compile(s, Local(Root), 0, false).value, table.Keys)
    requires Rendered(tys, defs, Schema(defs, {}, s).bill.names) && Untangled(s) && TypeOf(s, 0).Some?
    requires Eval(table, Compile(s, Local(Root), 0, false).value, map[Root := v], fuel) == Yields(true)
    ensures Inhabits(tys, TypeOf(s, 0).value, v, fuel)
  {
    LinkedDecides(defs, table, s, v, fuel);
    Exact(table, defs, s, Local(Root), 0, false, map[Root := v], v, fuel);
    PlanNames(defs, {}, s);
    AcceptedInhabits(tys, defs, Schema(defs, {}, s).bill.names, s, 0, v, fuel, AsWire(false));
  }

  /**
   The guard of an imported row, compiled from the expanded definition with raw UUID spellings, accepts only
   inhabitants of the definition's type.
   */
  lemma CsvGuardImpliesType(defs: Defs, tys: map<string, Ty>, s: Json, v: Value, fuel: nat)
    requires Schema(defs, {}, s).Planned? && Schema(defs, {}, s).bill.span.refs <= fuel
    requires Compile(Schema(defs, {}, s).out, Local(Root), 0, true).Some?
    requires Rendered(tys, defs, Schema(defs, {}, s).bill.names) && Untangled(s) && TypeOf(s, 0).Some?
    requires Eval(map[], Compile(Schema(defs, {}, s).out, Local(Root), 0, true).value, map[Root := v], 0) ==
             Yields(true)
    ensures Inhabits(tys, TypeOf(s, 0).value, v, fuel)
  {
    PlanRefFree(defs, {}, s);
    GuardReads(Schema(defs, {}, s).out, true, v);
    MeaningPreserved(defs, {}, s, v, fuel, AsWire(true));
    PlanNames(defs, {}, s);
    AcceptedInhabits(tys, defs, Schema(defs, {}, s).bill.names, s, 0, v, fuel, AsWire(true));
  }
}
