/** Which schemas have a TypeScript type, word by word, and the values that inhabit it. */
module TypeVocabulary {
  import opened Guards
  import opened Json
  import opened Options
  import opened SchemaMeaning
  import opened Types
  import opened Unicode
  import opened Values
  import opened Vocabulary

  // ----- what renders -----

  /** At most 32 levels; a reference stands alone; a constant is a scalar; a union has no object keywords beside it. */
  ghost predicate HasType(s: Json, depth: nat)
    decreases s, 0
  {
    && depth <= 32 && s.Obj?
    && var o := s.members;
       if Get(o, "$ref").Some?
       then exists name :: Identifier(name) && o == Member("$ref", Reference(name), NoMembers)
       else if Get(o, "const").Some? then !Get(o, "const").value.Arr? && !Get(o, "const").value.Obj?
       else if Get(o, "oneOf").Some? then UnionHasType(o, depth)
       else KindHasType(o, depth)
  }

  ghost predicate UnionHasType(o: Members, depth: nat)
    decreases o, 2
  {
    && Get(o, "properties").None? && Get(o, "required").None? && Get(o, "additionalProperties").None?
    && Get(o, "oneOf").Some? && Get(o, "oneOf").value.Arr?
    && BranchesHaveTypes(Get(o, "oneOf").value.items, depth)
  }

  ghost predicate BranchesHaveTypes(options: Items, depth: nat)
    decreases options, 0
  {
    options.Item? ==> HasType(options.head, depth + 1) && BranchesHaveTypes(options.tail, depth)
  }

  ghost predicate KindHasType(o: Members, depth: nat)
    decreases o, 3
  {
    match Get(o, "type")
    case Some(Str(word)) =>
      || word == "string" || word == "integer" || word == "number" || word == "boolean" || word == "null"
      || (word == "array" && Get(o, "items").Some? && HasType(Get(o, "items").value, depth + 1))
      || (word == "object" && ObjectHasType(o, depth))
    case _ => o == NoMembers
  }

  ghost predicate ObjectHasType(o: Members, depth: nat)
    decreases o, 2
  {
    PropertiesHaveTypes(o, PropertiesOf(o), depth) && AdditionalHasType(o, depth)
  }

  ghost predicate PropertiesHaveTypes(o: Members, among: Members, depth: nat)
    decreases o, 1
  {
    forall name | Get(among, name).Some? :: PropertyHasType(o, name, depth)
  }

  ghost predicate PropertyHasType(o: Members, name: string, depth: nat)
    decreases o, 0
  {
    Get(PropertiesOf(o), name).Some? && HasType(Get(PropertiesOf(o), name).value, depth + 1)
  }

  ghost predicate AdditionalHasType(o: Members, depth: nat)
    decreases o, 0
  {
    var additional := Get(o, "additionalProperties");
    || additional.None? || additional.value.Bool?
    || (additional.value.Obj? && HasType(additional.value, depth + 1))
  }

  /** The renderer succeeds exactly on these schemas. */
  lemma {:induction false} TypesExactly(s: Json, depth: nat)
    ensures TypeOf(s, depth).Some? <==> HasType(s, depth)
    decreases s, 0
  {
    if depth <= 32 && s.Obj? {
      var o := s.members;
      if Get(o, "$ref").Some? {
        LoneReference(o);
      } else if Get(o, "const").None? {
        if Get(o, "oneOf").Some? { UnionTypesExactly(o, depth); } else { KindTypesExactly(o, depth); }
        assert TypeOf(s, depth) == TypeOfNode(o, depth);
      }
    }
  }

  lemma {:induction false} UnionTypesExactly(o: Members, depth: nat)
    ensures TypeOfUnion(o, depth).Some? <==> UnionHasType(o, depth)
    decreases o, 3
  {
    match Get(o, "oneOf")
    case Some(Arr(options)) => BranchTypesExactly(options, depth);
    case _ =>
  }

  lemma {:induction false} BranchTypesExactly(options: Items, depth: nat)
    ensures TypeOfOptions(options, depth).Some? <==> BranchesHaveTypes(options, depth)
    decreases options, 0
  {
    match options
    case NoItems =>
    case Item(head, tail) =>
      TypesExactly(head, depth + 1);
      BranchTypesExactly(tail, depth);
  }

  lemma {:induction false} KindTypesExactly(o: Members, depth: nat)
    ensures TypeOfKind(o, depth).Some? <==> KindHasType(o, depth)
    decreases o, 3
  {
    KindsSpelled(o);
    match KindOf(o)
    case ArrayKind => if Get(o, "items").Some? { TypesExactly(Get(o, "items").value, depth + 1); }
    case ObjectKind =>
      PropertyTypesExactly(o, PropertiesOf(o), depth);
      AdditionalTypeExactly(o, depth);
    case _ =>
  }

  lemma AdditionalTypeExactly(o: Members, depth: nat)
    ensures TypeOfAdditional(o, depth).Some? <==> AdditionalHasType(o, depth)
    decreases o, 1
  {
    var additional := Get(o, "additionalProperties");
    if additional.Some? && additional.value.Obj? { TypesExactly(additional.value, depth + 1); }
  }

  lemma {:induction false} PropertyTypesExactly(o: Members, rest: Members, depth: nat)
    ensures TypeOfProps(o, PropertiesOf(o), rest, depth).Some? <==> PropertiesHaveTypes(o, rest, depth)
    decreases o, 1, rest
  {
    var all := PropertiesOf(o);
    match rest
    case NoMembers =>
    case Member(name, _, more) =>
      PropertyTypesExactly(o, more, depth);
      if Get(all, name).Some? { TypesExactly(Get(all, name).value, depth + 1); }
      assert Get(rest, name).Some?;
      assert forall n :: Get(rest, n).Some? <==> n == name || Get(more, n).Some?;
  }

  // ----- who inhabits -----

  /** The schema has a type and the value inhabits it. */
  ghost predicate Fits(tys: map<string, Ty>, s: Json, depth: nat, v: Value, fuel: nat) {
    TypeOf(s, depth).Some? && Inhabits(tys, TypeOf(s, depth).value, v, fuel)
  }

  ghost predicate ElementsFit(tys: map<string, Ty>, each: Json, depth: nat, items: Values, fuel: nat) {
    forall x | x in HeldIn(items) :: Fits(tys, each, depth + 1, x, fuel)
  }

  ghost predicate MembersFit(tys: map<string, Ty>, each: Json, depth: nat, fields: Fields, fuel: nat) {
    forall key | Own(fields, key).Some? :: Fits(tys, each, depth + 1, Own(fields, key).value, fuel)
  }

  /** A declared property that is there inhabits its type; one that is not there is not required. */
  ghost predicate PropertyFits(tys: map<string, Ty>, o: Members, name: string, child: Json, depth: nat, fields: Fields,
                               fuel: nat)
  {
    match Own(fields, Encode(name))
    case Some(v) => Fits(tys, child, depth + 1, v, fuel)
    case None => !ListedIn(Get(o, "required"), name)
  }

  ghost predicate DeclaredFit(tys: map<string, Ty>, o: Members, depth: nat, fields: Fields, fuel: nat) {
    forall name, child | Declared(o, name, child) :: PropertyFits(tys, o, name, child, depth, fields, fuel)
  }

  ghost predicate NoneDeclared(o: Members) { forall name, child :: !Declared(o, name, child) }

  predicate ListedIn(required: Option<Json>, name: string) {
    required.Some? && required.value.Arr? && Listed(required.value.items, name)
  }

  /**
   An object type. Excess members are not a type error unless nothing is declared, and a schema for additional members
   binds the declared ones too: it becomes an index signature.
   */
  ghost predicate ObjectFits(tys: map<string, Ty>, o: Members, depth: nat, fields: Fields, fuel: nat) {
    var additional := Get(o, "additionalProperties");
    && DeclaredFit(tys, o, depth, fields, fuel)
    && (additional == Some(Bool(false)) && NoneDeclared(o) ==> fields == NoFields)
    && (additional.Some? && additional.value.Obj? ==> MembersFit(tys, additional.value, depth, fields, fuel))
  }

  ghost predicate KindFits(tys: map<string, Ty>, o: Members, depth: nat, v: Value, fuel: nat) {
    && (Get(o, "type") == Some(Str("string")) ==> v.JsText?)
    && (Get(o, "type") == Some(Str("integer")) ==> v.JsNumber? || v.JsNonFinite?)
    && (Get(o, "type") == Some(Str("number")) ==> v.JsNumber? || v.JsNonFinite?)
    && (Get(o, "type") == Some(Str("boolean")) ==> v.JsBool?)
    && (Get(o, "type") == Some(Str("null")) ==> v.JsNull?)
    && (Get(o, "type") == Some(Str("array")) ==>
          v.JsArray? && Get(o, "items").Some? && ElementsFit(tys, Get(o, "items").value, depth, v.items, fuel))
    && (Get(o, "type") == Some(Str("object")) ==> v.JsObject? && ObjectFits(tys, o, depth, v.fields, fuel))
  }

  ghost predicate SomeFits(tys: map<string, Ty>, options: Items, depth: nat, v: Value, fuel: nat) {
    exists branch | branch in BranchesOf(options) :: Fits(tys, branch, depth + 1, v, fuel)
  }

  ghost predicate NodeFits(tys: map<string, Ty>, o: Members, depth: nat, v: Value, fuel: nat) {
    match (Get(o, "const"), Get(o, "oneOf"))
    case (Some(c), _) => Identical(c, v)
    case (None, Some(Arr(options))) => SomeFits(tys, options, depth, v, fuel)
    case _ => KindFits(tys, o, depth, v, fuel)
  }

  // ----- the inhabitants are what the words say -----

  lemma {:induction false} RequiredListed(required: Items, name: string)
    ensures IsRequired(required, name) <==> Listed(required, name)
  {
    match required
    case NoItems =>
    case Item(_, tail) => RequiredListed(tail, name);
  }

  ghost predicate HeldInhabit(tys: map<string, Ty>, t: Ty, held: seq<Value>, fuel: nat) {
    forall x | x in held :: Inhabits(tys, t, x, fuel)
  }

  lemma {:induction false} ItemsInhabit(tys: map<string, Ty>, t: Ty, items: Values, fuel: nat)
    ensures InhabitsItems(tys, t, items, fuel) <==> HeldInhabit(tys, t, HeldIn(items), fuel)
    decreases items
  {
    match items
    case NoValues =>
    case More(head, tail) =>
      ItemsInhabit(tys, t, tail, fuel);
      assert head in HeldIn(items) && forall x | x in HeldIn(tail) :: x in HeldIn(items);
    case Hole(tail) => ItemsInhabit(tys, t, tail, fuel);
  }

  lemma {:induction false} BranchesFit(tys: map<string, Ty>, options: Items, depth: nat, v: Value, fuel: nat)
    requires TypeOfOptions(options, depth).Some?
    ensures InhabitsSome(tys, TypeOfOptions(options, depth).value, v, fuel) <==> SomeFits(tys, options, depth, v, fuel)
    decreases options
  {
    match options
    case NoItems =>
    case Item(head, tail) =>
      BranchesFit(tys, tail, depth, v, fuel);
      var all := BranchesOf(options);
      assert all == [head] + BranchesOf(tail);
      assert head in all && forall x | x in BranchesOf(tail) :: x in all;
      assert SomeFits(tys, options, depth, v, fuel) <==>
             Fits(tys, head, depth + 1, v, fuel) || SomeFits(tys, tail, depth, v, fuel);
  }

  /** The declared properties among some names fit. */
  ghost predicate NamesFit(tys: map<string, Ty>, o: Members, among: Members, depth: nat, fields: Fields, fuel: nat) {
    forall name | Get(among, name).Some? && Get(PropertiesOf(o), name).Some? ::
      PropertyFits(tys, o, name, Get(PropertiesOf(o), name).value, depth, fields, fuel)
  }

  lemma {:induction false} PropertiesFit(tys: map<string, Ty>, o: Members, rest: Members, depth: nat, fields: Fields,
                                         fuel: nat)
    requires TypeOfProps(o, PropertiesOf(o), rest, depth).Some?
    ensures InhabitsProps(tys, TypeOfProps(o, PropertiesOf(o), rest, depth).value, fields, fuel) <==>
            NamesFit(tys, o, rest, depth, fields, fuel)
    decreases rest
  {
    match rest
    case NoMembers =>
    case Member(name, _, more) =>
      PropertiesFit(tys, o, more, depth, fields, fuel);
      RequiredListed(RequiredOf(o), name);
      assert Get(rest, name).Some?;
      assert forall n :: Get(rest, n).Some? <==> n == name || Get(more, n).Some?;
  }

  ghost predicate OwnInhabit(tys: map<string, Ty>, t: Ty, keys: Fields, fields: Fields, fuel: nat) {
    forall key | Own(keys, key).Some? :: OwnInhabits(tys, t, key, fields, fuel)
  }

  ghost predicate OwnInhabits(tys: map<string, Ty>, t: Ty, key: Text, fields: Fields, fuel: nat) {
    Own(fields, key).Some? ==> Inhabits(tys, t, Own(fields, key).value, fuel)
  }

  lemma {:induction false} FieldsInhabit(tys: map<string, Ty>, t: Ty, keys: Fields, fields: Fields, fuel: nat)
    ensures InhabitsFields(tys, t, keys, fields, fuel) <==> OwnInhabit(tys, t, keys, fields, fuel)
    decreases keys
  {
    match keys
    case NoFields =>
    case Field(key, _, rest) =>
      FieldsInhabit(tys, t, rest, fields, fuel);
      assert Own(keys, key).Some?;
      assert forall k :: Own(keys, k).Some? <==> k == key || Own(rest, k).Some?;
      assert OwnInhabit(tys, t, keys, fields, fuel) <==>
             OwnInhabits(tys, t, key, fields, fuel) && OwnInhabit(tys, t, rest, fields, fuel);
  }

  lemma DeclaredNames(tys: map<string, Ty>, o: Members, depth: nat, fields: Fields, fuel: nat)
    ensures NamesFit(tys, o, PropertiesOf(o), depth, fields, fuel) <==>
            DeclaredFit(tys, o, depth, fields, fuel)
    ensures PropertiesOf(o).NoMembers? <==> NoneDeclared(o)
  {
    var all := PropertiesOf(o);
    forall name, child ensures Declared(o, name, child) <==> Get(all, name) == Some(child) {
      if Get(all, name) == Some(child) { assert Get(o, "properties") == Some(Obj(all)); }
    }
    if all.Member? { assert Declared(o, all.name, all.value); }
    if NamesFit(tys, o, all, depth, fields, fuel) {
      forall name, child | Declared(o, name, child)
        ensures PropertyFits(tys, o, name, child, depth, fields, fuel)
      {
        assert Get(all, name) == Some(child);
      }
    }
  }

  /** An object type is its declared shape, the record of its additional members, or both. */
  lemma ObjectForms(tys: map<string, Ty>, o: Members, depth: nat, fields: Fields, fuel: nat)
    requires TypeOfObject(o, depth).Some?
    ensures TypeOfProps(o, PropertiesOf(o), PropertiesOf(o), depth).Some? && TypeOfAdditional(o, depth).Some?
    ensures var props := TypeOfProps(o, PropertiesOf(o), PropertiesOf(o), depth).value;
            var extra := TypeOfAdditional(o, depth).value;
            var each := if extra.Some? then extra.value else NeverTy;
            Inhabits(tys, TypeOfObject(o, depth).value, JsObject(fields), fuel) <==>
            && (PropertiesOf(o).Member? ==> InhabitsProps(tys, props, fields, fuel))
            && (PropertiesOf(o).NoMembers? || extra.Some? ==> InhabitsFields(tys, each, fields, fields, fuel))
  {
  }

  lemma ObjectsFit(tys: map<string, Ty>, o: Members, depth: nat, v: Value, fuel: nat)
    requires TypeOfObject(o, depth).Some?
    ensures Inhabits(tys, TypeOfObject(o, depth).value, v, fuel) <==>
            v.JsObject? && ObjectFits(tys, o, depth, v.fields, fuel)
  {
    if v.JsObject? {
      ObjectForms(tys, o, depth, v.fields, fuel);
      DeclaredNames(tys, o, depth, v.fields, fuel);
      PropertiesFit(tys, o, PropertiesOf(o), depth, v.fields, fuel);
      RecordsFit(tys, o, depth, v.fields, fuel);
    }
  }

  lemma RecordsFit(tys: map<string, Ty>, o: Members, depth: nat, fields: Fields, fuel: nat)
    requires TypeOfAdditional(o, depth).Some?
    ensures var additional, extra := Get(o, "additionalProperties"), TypeOfAdditional(o, depth).value;
            && (extra.None? <==> additional == Some(Bool(false)))
            && (extra.None? ==>
                  (InhabitsFields(tys, NeverTy, fields, fields, fuel) <==> fields == NoFields))
            && (extra.Some? ==>
                  (InhabitsFields(tys, extra.value, fields, fields, fuel) <==>
                   (additional.Some? && additional.value.Obj? ==>
                      MembersFit(tys, additional.value, depth, fields, fuel))))
  {
    var additional, extra := Get(o, "additionalProperties"), TypeOfAdditional(o, depth).value;
    FieldsInhabit(tys, if extra.Some? then extra.value else NeverTy, fields, fields, fuel);
    if extra.None? {
      assert fields.Field? ==> Own(fields, fields.key).Some?;
    } else if additional.Some? && additional.value.Obj? {
      assert OwnInhabit(tys, extra.value, fields, fields, fuel) <==>
             MembersFit(tys, additional.value, depth, fields, fuel);
    } else {
      assert extra.value == UnknownTy;
    }
  }

  lemma ArraysFit(tys: map<string, Ty>, each: Json, depth: nat, items: Values, fuel: nat)
    requires TypeOf(each, depth + 1).Some?
    ensures InhabitsItems(tys, TypeOf(each, depth + 1).value, items, fuel) <==>
            ElementsFit(tys, each, depth, items, fuel)
  {
    var t := TypeOf(each, depth + 1).value;
    ItemsInhabit(tys, t, items, fuel);
    assert forall x :: Fits(tys, each, depth + 1, x, fuel) <==> Inhabits(tys, t, x, fuel);
  }

  lemma KindsFit(tys: map<string, Ty>, o: Members, depth: nat, v: Value, fuel: nat)
    requires TypeOfKind(o, depth).Some?
    ensures Inhabits(tys, TypeOfKind(o, depth).value, v, fuel) <==> KindFits(tys, o, depth, v, fuel)
  {
    KindsSpelled(o);
    match KindOf(o)
    case ArrayKind => if v.JsArray? { ArraysFit(tys, Get(o, "items").value, depth, v.items, fuel); }
    case ObjectKind => ObjectsFit(tys, o, depth, v, fuel);
    case _ =>
  }

  /** The inhabitants of a schema's type are the values its words name, no more and no fewer. */
  lemma TypeSpelled(tys: map<string, Ty>, o: Members, depth: nat, v: Value, fuel: nat)
    requires Get(o, "$ref").None? && HasType(Obj(o), depth)
    ensures TypeOf(Obj(o), depth).Some?
    ensures Inhabits(tys, TypeOf(Obj(o), depth).value, v, fuel) <==> NodeFits(tys, o, depth, v, fuel)
  {
    TypesExactly(Obj(o), depth);
    assert TypeOf(Obj(o), depth) == TypeOfNode(o, depth);
    if Get(o, "const").None? {
      if Get(o, "oneOf").Some? {
        assert TypeOfUnion(o, depth).Some?;
        BranchesFit(tys, Get(o, "oneOf").value.items, depth, v, fuel);
      } else {
        KindsFit(tys, o, depth, v, fuel);
      }
    }
  }

  /** A reference is the name of its definition's type. */
  lemma NamedSpelled(tys: map<string, Ty>, name: string, depth: nat, v: Value, fuel: nat)
    requires Identifier(name) && depth <= 32
    ensures TypeOf(Obj(Member("$ref", Reference(name), NoMembers)), depth).Some?
    ensures Fits(tys, Obj(Member("$ref", Reference(name), NoMembers)), depth, v, fuel) <==>
            fuel > 0 && name in tys && Inhabits(tys, tys[name], v, fuel - 1)
  {
    ReferencesSpelled(Reference(name), name);
  }
}
