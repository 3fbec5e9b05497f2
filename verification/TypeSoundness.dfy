/** What a schema accepts inhabits the type rendered from it. */
module TypeSoundness {
  import opened Options
  import opened Json
  import opened Unicode
  import opened Values
  import opened Constants
  import opened ExpansionLaws
  import opened SchemaMeaning
  import opened Guards
  import opened GuardExactness
  import opened Types

  /** Objects that declare properties leave their additional members untyped, or have none. */
  predicate Untangled(s: Json) {
    s.Obj? && Get(s.members, "$ref").None? && Get(s.members, "const").None? ==> UntangledNode(s.members)
  }

  predicate UntangledNode(o: Members)
    decreases o, 1
  {
    && UntangledParts(o)
    && (PropertiesOf(o).Member? && Get(o, "additionalProperties").Some? && Get(o, "additionalProperties").value.Obj? ==>
          Get(o, "additionalProperties").value.members.NoMembers?)
  }

  predicate UntangledParts(o: Members)
    decreases o, 0
  {
    && (Get(o, "oneOf").Some? && Get(o, "oneOf").value.Arr? ==> UntangledOptions(Get(o, "oneOf").value.items))
    && (Get(o, "items").Some? ==> Untangled(Get(o, "items").value))
    && (Get(o, "additionalProperties").Some? ==> Untangled(Get(o, "additionalProperties").value))
    && (PropertiesOf(o).Member? ==> UntangledChildren(PropertiesOf(o)))
  }

  predicate UntangledOptions(options: Items) {
    options.Item? ==> Untangled(options.head) && UntangledOptions(options.tail)
  }

  predicate UntangledChildren(m: Members) {
    m.Member? ==> Untangled(m.value) && UntangledChildren(m.rest)
  }

  /** A rendered type for each of these definitions, which refer only to one another. */
  ghost predicate Rendered(tys: map<string, Ty>, defs: Defs, names: set<string>) {
    forall n | n in names && n in defs ::
      n in tys && TypeOf(defs[n], 0) == Some(tys[n]) && Untangled(defs[n]) && Refs(defs[n]) <= names
  }

  lemma {:induction false} AcceptedInhabits(tys: map<string, Ty>, defs: Defs, names: set<string>, s: Json, depth: nat,
                                            v: Value, fuel: nat,
                                            how: Reading)
    requires Refs(s) <= names
    requires Rendered(tys, defs, names) && Untangled(s) && TypeOf(s, depth).Some?
    requires Meaning(defs, s, v, fuel, how) == Some(true)
    ensures Inhabits(tys, TypeOf(s, depth).value, v, fuel)
    decreases fuel, s, 0
  {
    if Get(s.members, "$ref").Some? {
      AcceptedInhabits(tys, defs, names, defs[RefName(Get(s.members, "$ref").value).value], 0, v, fuel - 1, how);
    } else {
      NodeSound(tys, defs, names, s.members, depth, v, fuel, how);
    }
  }

  lemma {:induction false} NodeSound(tys: map<string, Ty>, defs: Defs, names: set<string>, o: Members, depth: nat,
                                     v: Value, fuel: nat,
                                     how: Reading)
    requires KeywordRefs(o) <= names
    requires Rendered(tys, defs, names) && (Get(o, "const").None? ==> UntangledNode(o)) && TypeOfNode(o, depth).Some?
    requires NodeMeaning(defs, o, v, fuel, how) == Some(true)
    ensures Inhabits(tys, TypeOfNode(o, depth).value, v, fuel)
    decreases fuel, o, 5
  {
    if Get(o, "const").Some? {
      if how.AsJson? {
        EqualsHeld(Get(o, "const").value, v);
        ComparesEqual(Get(o, "const").value, v);
      }
    } else if Get(o, "oneOf").Some? {
      var options := Get(o, "oneOf").value.items;
      assert UnionMeaning(defs, o, v, fuel, how) == Some(true);
      RefsAt(o, "oneOf");
      OptionsSound(tys, defs, names, options, depth, v, fuel, how);
    } else {
      KindSound(tys, defs, names, o, depth, v, fuel, how);
    }
  }

  lemma {:induction false} OptionsSound(tys: map<string, Ty>, defs: Defs, names: set<string>, options: Items,
                                        depth: nat, v: Value,
                                        fuel: nat, how: Reading)
    requires BranchRefs(options) <= names
    requires Rendered(tys, defs, names) && UntangledOptions(options) && TypeOfOptions(options, depth).Some?
    requires Matching(defs, options, v, fuel, how).Some? && Matching(defs, options, v, fuel, how).value > 0
    ensures InhabitsSome(tys, TypeOfOptions(options, depth).value, v, fuel)
    decreases fuel, options, 0
  {
    if Meaning(defs, options.head, v, fuel, how) == Some(true) {
      AcceptedInhabits(tys, defs, names, options.head, depth + 1, v, fuel, how);
    } else {
      OptionsSound(tys, defs, names, options.tail, depth, v, fuel, how);
    }
  }

  lemma {:induction false} KindSound(tys: map<string, Ty>, defs: Defs, names: set<string>, o: Members, depth: nat,
                                     v: Value, fuel: nat,
                                     how: Reading)
    requires KeywordRefs(o) <= names
    requires Rendered(tys, defs, names) && UntangledNode(o) && TypeOfKind(o, depth).Some?
    requires TypeMeaning(defs, o, v, fuel, how) == Some(true)
    ensures Inhabits(tys, TypeOfKind(o, depth).value, v, fuel)
    decreases fuel, o, 4
  {
    match KindOf(o)
    case ArrayKind =>
      assert ArrayMeaning(defs, o, v, fuel, how) == Some(true);
      RefsAt(o, "items");
      ItemsSound(tys, defs, names, o, Get(o, "items").value, depth, v.items, fuel, how);
    case ObjectKind =>
      assert ObjectMeaning(defs, o, v, fuel, how) == Some(true);
      ObjectSound(tys, defs, names, o, depth, v, fuel, how);
    case _ =>
  }

  lemma {:induction false} ItemsSound(tys: map<string, Ty>, defs: Defs, names: set<string>, o: Members, each: Json,
                                      depth: nat,
                                      items: Values, fuel: nat, how: Reading)
    requires Refs(each) <= names
    requires Rendered(tys, defs, names) && (o decreases to each) && Untangled(each) && TypeOf(each, depth + 1).Some?
    requires ItemsMeaning(defs, o, each, items, fuel, how) == Some(true)
    ensures InhabitsItems(tys, TypeOf(each, depth + 1).value, items, fuel)
    decreases fuel, o, 2, items
  {
    match items
    case NoValues =>
    case More(head, tail) =>
      AcceptedInhabits(tys, defs, names, each, depth + 1, head, fuel, how);
      ItemsSound(tys, defs, names, o, each, depth, tail, fuel, how);
    case Hole(tail) => ItemsSound(tys, defs, names, o, each, depth, tail, fuel, how);
  }

  lemma {:induction false} ObjectSound(tys: map<string, Ty>, defs: Defs, names: set<string>, o: Members, depth: nat,
                                       v: Value, fuel: nat,
                                       how: Reading)
    requires KeywordRefs(o) <= names
    requires Rendered(tys, defs, names) && UntangledNode(o) && TypeOfObject(o, depth).Some?
    requires v.JsObject? && ObjectMeaning(defs, o, v, fuel, how) == Some(true)
    ensures Inhabits(tys, TypeOfObject(o, depth).value, v, fuel)
    decreases fuel, o, 3
  {
    ObjectInhabits(tys, defs, names, o, depth, v, fuel, how);
    if PropertiesOf(o).Member? && TypeOfAdditional(o, depth).value.Some? {
      assert TypeOfAdditional(o, depth).value == Some(UnknownTy) by { UnknownExtra(o, depth); }
      AnythingFits(tys, PropertiesOf(o), v.fields, v.fields, fuel);
    }
  }

  lemma UnknownExtra(o: Members, depth: nat)
    requires UntangledNode(o) && PropertiesOf(o).Member? && TypeOfAdditional(o, depth).Some?
    ensures TypeOfAdditional(o, depth).value in {None, Some(UnknownTy)}
  {
    if Get(o, "additionalProperties").Some? && Get(o, "additionalProperties").value.Obj? {
      assert TypeOfNode(NoMembers, depth + 1) == Some(UnknownTy) by {
        assert KindOf(NoMembers) == Untyped;
      }
    }
  }

  /** Every declared own field also inhabits the given type. */
  predicate DeclaredFit(tys: map<string, Ty>, t: Ty, names: Members, keys: Fields, fields: Fields, fuel: nat)
    decreases keys
  {
    keys.Field? ==>
      && (Named(names, keys.key) && Own(fields, keys.key).Some? ==> Inhabits(tys, t, Own(fields, keys.key).value, fuel))
      && DeclaredFit(tys, t, names, keys.rest, fields, fuel)
  }

  lemma {:induction false} AnythingFits(tys: map<string, Ty>, names: Members, keys: Fields, fields: Fields, fuel: nat)
    ensures DeclaredFit(tys, UnknownTy, names, keys, fields, fuel)
    decreases keys
  {
    if keys.NoFields? {
    } else {
      AnythingFits(tys, names, keys.rest, fields, fuel);
    }
  }

  /**
   An accepted object inhabits its rendered type exactly when the intersection does no harm: the declared fields
   must also inhabit the type of additional members, which nothing else checks.
   */
  lemma {:induction false} ObjectInhabits(tys: map<string, Ty>, defs: Defs, names: set<string>, o: Members, depth: nat,
                                          v: Value, fuel: nat,
                                          how: Reading)
    requires KeywordRefs(o) <= names
    requires Rendered(tys, defs, names) && UntangledParts(o) && TypeOfObject(o, depth).Some?
    requires v.JsObject? && ObjectMeaning(defs, o, v, fuel, how) == Some(true)
    ensures var extra := TypeOfAdditional(o, depth).value;
            Inhabits(tys, TypeOfObject(o, depth).value, v, fuel) <==>
            (PropertiesOf(o).Member? && extra.Some? ==>
               DeclaredFit(tys, extra.value, PropertiesOf(o), v.fields, v.fields, fuel))
    decreases fuel, o, 2
  {
    OwnedBySelf(v.fields);
    var all, extra := PropertiesOf(o), TypeOfAdditional(o, depth).value;
    ObjectForms(tys, o, depth, v.fields, fuel);
    RecordSound(tys, defs, names, o, depth, v.fields, v.fields, fuel, how);
    if all.NoMembers? {
      NothingDeclared(tys, if extra.Some? then extra.value else NeverTy, v.fields, v.fields, fuel);
    } else {
      PropsSound(tys, defs, names, o, all, depth, v.fields, fuel, how);
    }
  }

  /** The rendered object type is a record, a shape, or both. */
  lemma ObjectForms(tys: map<string, Ty>, o: Members, depth: nat, fields: Fields, fuel: nat)
    requires TypeOfObject(o, depth).Some?
    ensures TypeOfAdditional(o, depth).Some?
    ensures var all, extra := PropertiesOf(o), TypeOfAdditional(o, depth).value;
            var t := if extra.Some? then extra.value else NeverTy;
            Inhabits(tys, TypeOfObject(o, depth).value, JsObject(fields), fuel) <==>
            if all.NoMembers? then InhabitsFields(tys, t, fields, fields, fuel)
            else
              && TypeOfProps(o, all, all, depth).Some?
              && InhabitsProps(tys, TypeOfProps(o, all, all, depth).value, fields, fuel)
              && (extra.Some? ==> InhabitsFields(tys, extra.value, fields, fields, fuel))
  {
  }

  lemma {:induction false} NothingDeclared(tys: map<string, Ty>, t: Ty, keys: Fields, fields: Fields, fuel: nat)
    ensures DeclaredFit(tys, t, NoMembers, keys, fields, fuel)
    decreases keys
  {
    if keys.NoFields? {
    } else {
      NothingDeclared(tys, t, keys.rest, fields, fuel);
    }
  }

  lemma {:induction false} PropsSound(tys: map<string, Ty>, defs: Defs, names: set<string>, o: Members, rest: Members,
                                      depth: nat,
                                      fields: Fields, fuel: nat, how: Reading)
    requires KeywordRefs(o) <= names
    requires Rendered(tys, defs, names) && UntangledParts(o) && TypeOfProps(o, PropertiesOf(o), rest, depth).Some?
    requires FieldsMeaning(defs, o, fields, fields, fuel, how) == Some(true) && RequiredOk(RequiredOf(o), fields)
    ensures InhabitsProps(tys, TypeOfProps(o, PropertiesOf(o), rest, depth).value, fields, fuel)
    decreases fuel, o, 1, rest
  {
    if rest.NoMembers? {
    } else {
      PropsSound(tys, defs, names, o, rest.rest, depth, fields, fuel, how);
      var all, name := PropertiesOf(o), rest.name;
      if Own(fields, Encode(name)).Some? {
        DeclaredField(defs, o, name, fields, fuel, how);
        UntangledChild(all, name);
        RefsAt(o, "properties");
        ChildRefsAt(all, name);
        AcceptedInhabits(tys, defs, names, Get(all, name).value, depth + 1, Own(fields, Encode(name)).value, fuel, how);
      } else if IsRequired(RequiredOf(o), name) {
        RequiredPresent(RequiredOf(o), fields, name);
      }
    }
  }

  lemma {:induction false} UntangledChild(m: Members, name: string)
    requires UntangledChildren(m) && Get(m, name).Some?
    ensures Untangled(Get(m, name).value)
  {
    if m.name == name {
    } else {
      UntangledChild(m.rest, name);
    }
  }

  /** Undeclared fields inhabit the type of additional members. */
  lemma {:induction false} RecordSound(tys: map<string, Ty>, defs: Defs, names: set<string>, o: Members, depth: nat,
                                       keys: Fields,
                                       fields: Fields, fuel: nat, how: Reading)
    requires KeywordRefs(o) <= names
    requires Rendered(tys, defs, names) && UntangledParts(o) && TypeOfAdditional(o, depth).Some?
    requires FieldsMeaning(defs, o, keys, fields, fuel, how) == Some(true) && Owned(keys, fields)
    ensures var extra := TypeOfAdditional(o, depth).value; var t := if extra.Some? then extra.value else NeverTy;
            InhabitsFields(tys, t, keys, fields, fuel) <==> DeclaredFit(tys, t, PropertiesOf(o), keys, fields, fuel)
    decreases fuel, o, 1, keys
  {
    if keys.NoFields? {
    } else {
      RecordSound(tys, defs, names, o, depth, keys.rest, fields, fuel, how);
      NamedIsDeclared(PropertiesOf(o), keys.key);
      var additional := Get(o, "additionalProperties");
      assert FieldMeaning(defs, o, keys.key, fields, fuel, how) == Some(true);
      if !Named(PropertiesOf(o), keys.key) && additional.Some? && additional.value.Obj? {
        RefsAt(o, "additionalProperties");
        AcceptedInhabits(tys, defs, names, additional.value, depth + 1, Own(fields, keys.key).value, fuel, how);
      }
    }
  }

  // ----- the intersection can exclude accepted values -----

  const STRING_SCHEMA := Obj(Member("type", Str("string"), NoMembers))
  const INTEGER_SCHEMA := Obj(Member("type", Str("integer"), NoMembers))
  const TANGLED_FIELDS :=
    Member("additionalProperties", INTEGER_SCHEMA,
           Member("properties", Obj(Member("a", STRING_SCHEMA, NoMembers)),
                  Member("type", Str("object"), NoMembers)))

  lemma StringSchema(how: Reading)
    ensures Meaning(map[], STRING_SCHEMA, JsText([]), 0, how) == Some(true)
    ensures TypeOf(STRING_SCHEMA, 1) == Some(StringTy)
  {
    assert KindOf(STRING_SCHEMA.members) == StringKind;
    assert NodeMeaning(map[], STRING_SCHEMA.members, JsText([]), 0, how) == Some(true);
  }

  lemma IntegerSchema()
    ensures TypeOf(INTEGER_SCHEMA, 1) == Some(NumberTy)
  {
    assert KindOf(INTEGER_SCHEMA.members) == IntegerKind;
  }

  /** An object schema like the one above, by what its keywords say. */
  predicate Tangled(o: Members) {
    && Get(o, "$ref").None? && Get(o, "const").None? && Get(o, "oneOf").None? && Get(o, "required").None?
    && KindOf(o) == ObjectKind
    && Get(o, "properties") == Some(Obj(Member("a", STRING_SCHEMA, NoMembers)))
    && Get(o, "additionalProperties") == Some(INTEGER_SCHEMA)
  }

  lemma TangledAccepts(o: Members, key: Text, how: Reading)
    requires Tangled(o) && key == Encode("a")
    ensures Meaning(map[], Obj(o), JsObject(Field(key, JsText([]), NoFields)), 0, how) == Some(true)
  {
    var fields := Field(key, JsText([]), NoFields);
    StringSchema(how);
    assert PropertyFor(PropertiesOf(o), key) == Some(STRING_SCHEMA);
    assert FieldMeaning(map[], o, key, fields, 0, how) == Some(true);
    assert FieldsMeaning(map[], o, NoFields, fields, 0, how) == Some(true);
    assert FieldsMeaning(map[], o, fields, fields, 0, how) == Some(true);
    assert RequiredOk(RequiredOf(o), fields);
    assert ObjectMeaning(map[], o, JsObject(fields), 0, how) == Some(true);
    assert TypeMeaning(map[], o, JsObject(fields), 0, how) == Some(true);
    assert UnionMeaning(map[], o, JsObject(fields), 0, how) == Some(true);
    assert NodeMeaning(map[], o, JsObject(fields), 0, how) == Some(true);
  }

  lemma TangledType(o: Members)
    requires Tangled(o)
    ensures TypeOf(Obj(o), 0) == Some(BothTy(ShapeTy(PropTy("a", true, StringTy, NoProps)), RecordTy(NumberTy)))
  {
    StringSchema(AsJson(false));
    IntegerSchema();
    var all := PropertiesOf(o);
    assert TypeOfProps(o, all, NoMembers, 0) == Some(NoProps);
    assert TypeOfProps(o, all, all, 0) == Some(PropTy("a", true, StringTy, NoProps));
    assert TypeOfAdditional(o, 0) == Some(Some(NumberTy));
    assert TypeOfKind(o, 0) == TypeOfObject(o, 0);
  }

  /** A field with a text is no record of numbers, whatever else is asked of the object. */
  lemma NoNumbers(shape: Ty, key: Text, fuel: nat)
    ensures !Inhabits(map[], BothTy(shape, RecordTy(NumberTy)), JsObject(Field(key, JsText([]), NoFields)), fuel)
  {
    var fields := Field(key, JsText([]), NoFields);
    assert !InhabitsFields(map[], NumberTy, fields, fields, fuel);
    assert !Inhabits(map[], RecordTy(NumberTy), JsObject(fields), fuel);
  }

  /** `{"a": ""}` is accepted where `a` is a string and other members are integers, yet the type excludes it. */
  lemma TangledCounterexample(o: Members, key: Text, how: Reading)
    requires Tangled(o) && key == Encode("a")
    ensures var v := JsObject(Field(key, JsText([]), NoFields));
            && Meaning(map[], Obj(o), v, 0, how) == Some(true)
            && TypeOf(Obj(o), 0).Some?
            && !Inhabits(map[], TypeOf(Obj(o), 0).value, v, 0)
  {
    TangledAccepts(o, key, how);
    TangledType(o);
    NoNumbers(TypeOf(Obj(o), 0).value.left, key, 0);
  }

  lemma TangledExists()
    ensures Tangled(TANGLED_FIELDS)
  {
    assert Get(TANGLED_FIELDS, "type") == Some(Str("object"));
  }
}
