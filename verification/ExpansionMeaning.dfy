/** Expansion preserves meaning: the output, read without any definitions, accepts what the schema accepts. */
module ExpansionMeaning {
  import opened Json
  import opened Unicode
  import opened Values
  import opened SchemaMeaning
  import opened Expansion

  // ----- what inlining means, keyword by keyword -----

  /** `out` is `s` with every reference in a schema position replaced, at most `fuel` of them nested. */
  predicate Inlines(defs: Defs, s: Json, out: Json, fuel: nat)
    decreases fuel, s, 0
  {
    s.Obj? &&
    match Get(s.members, "$ref")
    case Some(reference) =>
      && fuel > 0 && RefName(reference).Some? && RefName(reference).value in defs
      && Inlines(defs, defs[RefName(reference).value], out, fuel - 1)
    case None => out.Obj? && InlinesKeywords(defs, s.members, out.members, fuel)
  }

  predicate InlinesKeywords(defs: Defs, m: Members, n: Members, fuel: nat)
    decreases fuel, m, 0
  {
    if m.NoMembers? then n.NoMembers?
    else n.Member? && m.name == n.name && InlinesKeyword(defs, m.name, m.value, n.value, fuel)
         && InlinesKeywords(defs, m.rest, n.rest, fuel)
  }

  predicate InlinesKeyword(defs: Defs, name: string, value: Json, out: Json, fuel: nat)
    decreases fuel, value, 1
  {
    if name == "properties" then value.Obj? && out.Obj? && InlinesChildren(defs, value.members, out.members, fuel)
    else if name == "items" || (name == "additionalProperties" && value.Obj?) then Inlines(defs, value, out, fuel)
    else if name == "oneOf" then value.Arr? && out.Arr? && InlinesBranches(defs, value.items, out.items, fuel)
    else value == out
  }

  predicate InlinesChildren(defs: Defs, m: Members, n: Members, fuel: nat)
    decreases fuel, m, 0
  {
    if m.NoMembers? then n.NoMembers?
    else n.Member? && m.name == n.name && Inlines(defs, m.value, n.value, fuel)
         && InlinesChildren(defs, m.rest, n.rest, fuel)
  }

  predicate InlinesBranches(defs: Defs, items: Items, out: Items, fuel: nat)
    decreases fuel, items, 0
  {
    if items.NoItems? then out.NoItems?
    else out.Item? && Inlines(defs, items.head, out.head, fuel) && InlinesBranches(defs, items.tail, out.tail, fuel)
  }

  // ----- the plan inlines -----

  lemma {:induction false} PlanInlines(defs: Defs, blocked: set<string>, s: Json, fuel: nat)
    requires Schema(defs, blocked, s).Planned? && Schema(defs, blocked, s).bill.span.refs <= fuel
    ensures Inlines(defs, s, Schema(defs, blocked, s).out, fuel)
    decreases defs.Keys - blocked, s, 0
  {
    if Get(s.members, "$ref").Some? {
      var name := Target(defs, s.members).value;
      PlanInlines(defs, blocked + {name}, defs[name], fuel - 1);
    } else {
      PlanInlinesKeywords(defs, blocked, s.members, fuel);
    }
  }

  lemma {:induction false} PlanInlinesKeywords(defs: Defs, blocked: set<string>, m: Members, fuel: nat)
    requires Keywords(defs, blocked, m).Planned? && Keywords(defs, blocked, m).bill.span.refs <= fuel
    ensures InlinesKeywords(defs, m, Keywords(defs, blocked, m).out, fuel)
    decreases defs.Keys - blocked, m, 0
  {
    if m.NoMembers? {
    } else {
      PlanInlinesKeyword(defs, blocked, m.name, m.value, fuel);
      PlanInlinesKeywords(defs, blocked, m.rest, fuel);
    }
  }

  lemma {:induction false} PlanInlinesKeyword(defs: Defs, blocked: set<string>, name: string, value: Json, fuel: nat)
    requires Keyword(defs, blocked, name, value).Planned? && Keyword(defs, blocked, name, value).bill.span.refs <= fuel
    ensures InlinesKeyword(defs, name, value, Keyword(defs, blocked, name, value).out, fuel)
    decreases defs.Keys - blocked, value, 1
  {
    if name == "properties" {
      PlanInlinesChildren(defs, blocked, value.members, fuel);
    } else if name == "items" || (name == "additionalProperties" && value.Obj?) {
      PlanInlines(defs, blocked, value, fuel);
    } else if name == "oneOf" {
      PlanInlinesBranches(defs, blocked, value.items, fuel);
    }
  }

  lemma {:induction false} PlanInlinesChildren(defs: Defs, blocked: set<string>, m: Members, fuel: nat)
    requires Children(defs, blocked, m).Planned? && Children(defs, blocked, m).bill.span.refs <= fuel
    ensures InlinesChildren(defs, m, Children(defs, blocked, m).out, fuel)
    decreases defs.Keys - blocked, m, 0
  {
    if m.NoMembers? {
    } else {
      PlanInlines(defs, blocked, m.value, fuel);
      PlanInlinesChildren(defs, blocked, m.rest, fuel);
    }
  }

  lemma {:induction false} PlanInlinesBranches(defs: Defs, blocked: set<string>, items: Items, fuel: nat)
    requires Branches(defs, blocked, items).Planned? && Branches(defs, blocked, items).bill.span.refs <= fuel
    ensures InlinesBranches(defs, items, Branches(defs, blocked, items).out, fuel)
    decreases defs.Keys - blocked, items, 0
  {
    if items.NoItems? {
    } else {
      PlanInlines(defs, blocked, items.head, fuel);
      PlanInlinesBranches(defs, blocked, items.tail, fuel);
    }
  }

  // ----- inlining keeps the meaning -----

  /** A keyword of the output corresponds to the same keyword of the input. */
  lemma {:induction false} Kept(defs: Defs, m: Members, n: Members, fuel: nat, name: string)
    requires InlinesKeywords(defs, m, n, fuel)
    ensures match Get(m, name)
            case None => Get(n, name).None?
            case Some(value) => Get(n, name).Some? && InlinesKeyword(defs, name, value, Get(n, name).value, fuel)
    decreases m
  {
    if m.NoMembers? {
    } else {
      Kept(defs, m.rest, n.rest, fuel, name);
    }
  }

  predicate Plain(name: string) {
    name != "properties" && name != "items" && name != "additionalProperties" && name != "oneOf"
  }

  /** Keywords that hold no schema are copied. */
  lemma PlainKept(defs: Defs, m: Members, n: Members, fuel: nat, name: string)
    requires InlinesKeywords(defs, m, n, fuel) && Plain(name)
    ensures Get(n, name) == Get(m, name)
  {
    Kept(defs, m, n, fuel, name);
  }

  lemma {:induction false} ChildKept(defs: Defs, m: Members, n: Members, fuel: nat, key: Text)
    requires InlinesChildren(defs, m, n, fuel)
    ensures match PropertyFor(m, key)
            case None => PropertyFor(n, key).None?
            case Some(child) => PropertyFor(n, key).Some? && Inlines(defs, child, PropertyFor(n, key).value, fuel)
    decreases m
  {
    if m.NoMembers? {
    } else {
      ChildKept(defs, m.rest, n.rest, fuel, key);
    }
  }

  lemma {:induction false} InlinedMeaning(defs: Defs, s: Json, out: Json, v: Value, fuel: nat, how: Reading)
    requires Inlines(defs, s, out, fuel)
    ensures Meaning(defs, s, v, fuel, how) == Meaning(map[], out, v, 0, how)
    decreases fuel, s, 0
  {
    if Get(s.members, "$ref").Some? {
      InlinedMeaning(defs, defs[RefName(Get(s.members, "$ref").value).value], out, v, fuel - 1, how);
    } else {
      PlainKept(defs, s.members, out.members, fuel, "$ref");
      InlinedNode(defs, s.members, out.members, v, fuel, how);
    }
  }

  lemma {:induction false} InlinedNode(defs: Defs, o: Members, n: Members, v: Value, fuel: nat, how: Reading)
    requires InlinesKeywords(defs, o, n, fuel)
    ensures NodeMeaning(defs, o, v, fuel, how) == NodeMeaning(map[], n, v, 0, how)
    decreases fuel, o, 4
  {
    PlainKept(defs, o, n, fuel, "const");
    InlinedUnion(defs, o, n, v, fuel, how);
    InlinedType(defs, o, n, v, fuel, how);
  }

  lemma {:induction false} InlinedUnion(defs: Defs, o: Members, n: Members, v: Value, fuel: nat, how: Reading)
    requires InlinesKeywords(defs, o, n, fuel)
    ensures UnionMeaning(defs, o, v, fuel, how) == UnionMeaning(map[], n, v, 0, how)
    decreases fuel, o, 0
  {
    Kept(defs, o, n, fuel, "oneOf");
    if Get(o, "oneOf").Some? {
      InlinedMatching(defs, Get(o, "oneOf").value.items, Get(n, "oneOf").value.items, v, fuel, how);
    }
  }

  lemma {:induction false} InlinedMatching(defs: Defs, options: Items, out: Items, v: Value, fuel: nat, how: Reading)
    requires InlinesBranches(defs, options, out, fuel)
    ensures Matching(defs, options, v, fuel, how) == Matching(map[], out, v, 0, how)
    decreases fuel, options, 0
  {
    if options.NoItems? {
    } else {
      InlinedMeaning(defs, options.head, out.head, v, fuel, how);
      InlinedMatching(defs, options.tail, out.tail, v, fuel, how);
    }
  }

  lemma {:induction false} InlinedType(defs: Defs, o: Members, n: Members, v: Value, fuel: nat, how: Reading)
    requires InlinesKeywords(defs, o, n, fuel)
    ensures TypeMeaning(defs, o, v, fuel, how) == TypeMeaning(map[], n, v, 0, how)
    decreases fuel, o, 3
  {
    KindKept(defs, o, n, fuel);
    match KindOf(o)
    case StringKind => TextKept(defs, o, n, fuel);
    case IntegerKind => IntegerKept(defs, o, n, fuel);
    case ArrayKind => InlinedArray(defs, o, n, v, fuel, how);
    case ObjectKind => InlinedObject(defs, o, n, v, fuel, how);
    case _ =>
  }

  lemma {:induction false} InlinedObject(defs: Defs, o: Members, n: Members, v: Value, fuel: nat, how: Reading)
    requires InlinesKeywords(defs, o, n, fuel)
    ensures ObjectMeaning(defs, o, v, fuel, how) == ObjectMeaning(map[], n, v, 0, how)
    decreases fuel, o, 2
  {
    PlainKept(defs, o, n, fuel, "required");
    if v.JsObject? { InlinedFields(defs, o, n, v.fields, v.fields, fuel, how); }
  }

  lemma KindKept(defs: Defs, o: Members, n: Members, fuel: nat)
    requires InlinesKeywords(defs, o, n, fuel)
    ensures KindOf(o) == KindOf(n)
  {
    PlainKept(defs, o, n, fuel, "type");
  }

  lemma IntegerKept(defs: Defs, o: Members, n: Members, fuel: nat)
    requires InlinesKeywords(defs, o, n, fuel)
    ensures forall r :: IntegerOk(o, r) == IntegerOk(n, r)
  {
    PlainKept(defs, o, n, fuel, "minimum");
    PlainKept(defs, o, n, fuel, "maximum");
  }

  lemma TextKept(defs: Defs, o: Members, n: Members, fuel: nat)
    requires InlinesKeywords(defs, o, n, fuel)
    ensures forall t, csv :: TextOk(o, t, csv) == TextOk(n, t, csv)
  {
    PlainKept(defs, o, n, fuel, "minLength");
    PlainKept(defs, o, n, fuel, "maxLength");
    PlainKept(defs, o, n, fuel, "format");
    PlainKept(defs, o, n, fuel, "pattern");
  }

  lemma {:induction false} InlinedArray(defs: Defs, o: Members, n: Members, v: Value, fuel: nat, how: Reading)
    requires InlinesKeywords(defs, o, n, fuel)
    ensures ArrayMeaning(defs, o, v, fuel, how) == ArrayMeaning(map[], n, v, 0, how)
    decreases fuel, o, 2
  {
    Kept(defs, o, n, fuel, "items");
    PlainKept(defs, o, n, fuel, "minItems");
    PlainKept(defs, o, n, fuel, "maxItems");
    if Get(o, "items").Some? && v.JsArray? {
      InlinedItems(defs, o, n, Get(o, "items").value, Get(n, "items").value, v.items, fuel, how);
    }
  }

  lemma {:induction false} InlinedItems(defs: Defs, o: Members, n: Members, each: Json, out: Json, items: Values,
                                        fuel: nat, how: Reading)
    requires (o decreases to each) && (n decreases to out) && Inlines(defs, each, out, fuel)
    ensures ItemsMeaning(defs, o, each, items, fuel, how) == ItemsMeaning(map[], n, out, items, 0, how)
    decreases fuel, o, 1, items
  {
    match items
    case NoValues =>
    case More(head, tail) =>
      InlinedMeaning(defs, each, out, head, fuel, how);
      InlinedItems(defs, o, n, each, out, tail, fuel, how);
    case Hole(tail) => InlinedItems(defs, o, n, each, out, tail, fuel, how);
  }

  lemma {:induction false} InlinedFields(defs: Defs, o: Members, n: Members, keys: Fields, fields: Fields, fuel: nat,
                                         how: Reading)
    requires InlinesKeywords(defs, o, n, fuel)
    ensures FieldsMeaning(defs, o, keys, fields, fuel, how) == FieldsMeaning(map[], n, keys, fields, 0, how)
    decreases fuel, o, 1, keys
  {
    if keys.NoFields? {
    } else {
      InlinedField(defs, o, n, keys.key, fields, fuel, how);
      InlinedFields(defs, o, n, keys.rest, fields, fuel, how);
    }
  }

  lemma {:induction false} InlinedField(defs: Defs, o: Members, n: Members, key: Text, fields: Fields, fuel: nat,
                                        how: Reading)
    requires InlinesKeywords(defs, o, n, fuel)
    ensures FieldMeaning(defs, o, key, fields, fuel, how) == FieldMeaning(map[], n, key, fields, 0, how)
    decreases fuel, o, 0
  {
    Kept(defs, o, n, fuel, "properties");
    Kept(defs, o, n, fuel, "additionalProperties");
    if Own(fields, key).Some? {
      var v := Own(fields, key).value;
      if Get(o, "properties").Some? { ChildKept(defs, PropertiesOf(o), PropertiesOf(n), fuel, key); }
      if PropertyFor(PropertiesOf(o), key).Some? {
        InlinedMeaning(defs, PropertyFor(PropertiesOf(o), key).value, PropertyFor(PropertiesOf(n), key).value, v,
            fuel, how);
      } else if Get(o, "additionalProperties").Some? && Get(o, "additionalProperties").value.Obj? {
        InlinedMeaning(defs, Get(o, "additionalProperties").value, Get(n, "additionalProperties").value, v, fuel, how);
        AdditionalStaysObject(defs, Get(o, "additionalProperties").value, Get(n, "additionalProperties").value, fuel);
      }
    }
  }

  lemma {:induction false} AdditionalStaysObject(defs: Defs, s: Json, out: Json, fuel: nat)
    requires Inlines(defs, s, out, fuel)
    ensures out.Obj?
    decreases fuel
  {
    if Get(s.members, "$ref").Some? {
      AdditionalStaysObject(defs, defs[RefName(Get(s.members, "$ref").value).value], out, fuel - 1);
    }
  }

  /**
   Whenever a schema can be expanded, the output read without definitions accepts exactly what the schema accepts
   under its definitions, for every value and every fuel that covers the reference nesting.
   */
  lemma MeaningPreserved(defs: Defs, blocked: set<string>, s: Json, v: Value, fuel: nat, how: Reading)
    requires Schema(defs, blocked, s).Planned? && Schema(defs, blocked, s).bill.span.refs <= fuel
    ensures Meaning(defs, s, v, fuel, how) == Meaning(map[], Schema(defs, blocked, s).out, v, 0, how)
  {
    PlanInlines(defs, blocked, s, fuel);
    InlinedMeaning(defs, s, Schema(defs, blocked, s).out, v, fuel, how);
  }

  /** More fuel never changes a decided answer, so a schema has at most one meaning. */
  lemma {:induction false} FuelMonotone(defs: Defs, s: Json, v: Value, fuel: nat, more: nat, how: Reading)
    requires fuel <= more && Meaning(defs, s, v, fuel, how).Some?
    ensures Meaning(defs, s, v, more, how) == Meaning(defs, s, v, fuel, how)
    decreases fuel, s, 4
  {
    if Get(s.members, "$ref").Some? {
      FuelMonotone(defs, defs[RefName(Get(s.members, "$ref").value).value], v, fuel - 1, more - 1, how);
    } else {
      assert NodeMeaning(defs, s.members, v, fuel, how).Some?;
      UnionMonotone(defs, s.members, v, fuel, more, how);
      TypeMonotone(defs, s.members, v, fuel, more, how);
    }
  }

  lemma {:induction false} UnionMonotone(defs: Defs, o: Members, v: Value, fuel: nat, more: nat, how: Reading)
    requires fuel <= more && UnionMeaning(defs, o, v, fuel, how).Some?
    ensures UnionMeaning(defs, o, v, more, how) == UnionMeaning(defs, o, v, fuel, how)
    decreases fuel, o, 3
  {
    match Get(o, "oneOf")
    case Some(Arr(options)) => MatchingMonotone(defs, options, v, fuel, more, how);
    case _ =>
  }

  lemma {:induction false} TypeMonotone(defs: Defs, o: Members, v: Value, fuel: nat, more: nat, how: Reading)
    requires fuel <= more && TypeMeaning(defs, o, v, fuel, how).Some?
    ensures TypeMeaning(defs, o, v, more, how) == TypeMeaning(defs, o, v, fuel, how)
    decreases fuel, o, 3
  {
    match KindOf(o)
    case ArrayKind =>
      assert ArrayMeaning(defs, o, v, fuel, how).Some?;
      if v.JsArray? { ItemsMonotone(defs, o, Get(o, "items").value, v.items, fuel, more, how); }
    case ObjectKind =>
      assert ObjectMeaning(defs, o, v, fuel, how).Some?;
      if v.JsObject? { FieldsMonotone(defs, o, v.fields, v.fields, fuel, more, how); }
    case _ =>
  }

  lemma {:induction false} MatchingMonotone(defs: Defs, options: Items, v: Value, fuel: nat, more: nat, how: Reading)
    requires fuel <= more && Matching(defs, options, v, fuel, how).Some?
    ensures Matching(defs, options, v, more, how) == Matching(defs, options, v, fuel, how)
    decreases fuel, options, 4
  {
    if options.NoItems? {
    } else {
      FuelMonotone(defs, options.head, v, fuel, more, how);
      MatchingMonotone(defs, options.tail, v, fuel, more, how);
    }
  }

  lemma {:induction false} ItemsMonotone(defs: Defs, o: Members, each: Json, items: Values, fuel: nat, more: nat,
                                         how: Reading)
    requires o decreases to each
    requires fuel <= more && ItemsMeaning(defs, o, each, items, fuel, how).Some?
    ensures ItemsMeaning(defs, o, each, items, more, how) == ItemsMeaning(defs, o, each, items, fuel, how)
    decreases fuel, o, 1, items
  {
    match items
    case NoValues =>
    case More(head, tail) =>
      FuelMonotone(defs, each, head, fuel, more, how);
      ItemsMonotone(defs, o, each, tail, fuel, more, how);
    case Hole(tail) => ItemsMonotone(defs, o, each, tail, fuel, more, how);
  }

  lemma {:induction false} FieldsMonotone(defs: Defs, o: Members, keys: Fields, fields: Fields, fuel: nat, more: nat,
                                          how: Reading)
    requires fuel <= more && FieldsMeaning(defs, o, keys, fields, fuel, how).Some?
    ensures FieldsMeaning(defs, o, keys, fields, more, how) == FieldsMeaning(defs, o, keys, fields, fuel, how)
    decreases fuel, o, 1, keys
  {
    if keys.NoFields? {
    } else {
      if Own(fields, keys.key).Some? {
        var v := Own(fields, keys.key).value;
        match PropertyFor(PropertiesOf(o), keys.key)
        case Some(child) => FuelMonotone(defs, child, v, fuel, more, how);
        case None =>
          if Get(o, "additionalProperties").Some? && Get(o, "additionalProperties").value.Obj? {
            FuelMonotone(defs, Get(o, "additionalProperties").value, v, fuel, more, how);
          }
      }
      FieldsMonotone(defs, o, keys.rest, fields, fuel, more, how);
    }
  }
}
