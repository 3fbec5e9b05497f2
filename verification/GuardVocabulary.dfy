/** Which schemas the guard compiler renders, word by word, and what the guard of a rendered schema asks of a value. */
module GuardVocabulary {
  import opened ExpansionLaws
  import opened GuardAgreement
  import opened GuardExactness
  import opened Guards
  import opened Json
  import opened Options
  import opened SchemaMeaning
  import opened Unicode
  import opened Values
  import opened Vocabulary

  // ----- what renders -----

  /** At most 32 levels; a reference stands alone and needs the call form; otherwise every part must render. */
  ghost predicate Renders(s: Json, depth: nat, csv: bool)
    decreases s, 0
  {
    && depth <= 32 && s.Obj?
    && if Get(s.members, "$ref").Some?
       then !csv && exists name :: Identifier(name) && s.members == Member("$ref", Reference(name), NoMembers)
       else OptionsRender(s.members, depth, csv) && TypeRenders(s.members, depth, csv)
  }

  ghost predicate OptionsRender(o: Members, depth: nat, csv: bool)
    decreases o, 2
  {
    match Get(o, "oneOf")
    case Some(Arr(options)) => BranchesRender(options, depth, csv)
    case _ => true
  }

  ghost predicate BranchesRender(options: Items, depth: nat, csv: bool)
    decreases options, 0
  {
    match options
    case NoItems => true
    case Item(head, tail) => Renders(head, depth + 1, csv) && BranchesRender(tail, depth, csv)
  }

  ghost predicate TypeRenders(o: Members, depth: nat, csv: bool)
    decreases o, 3
  {
    match Get(o, "type")
    case Some(Str(word)) =>
      || (word == "string" && FormatRenders(o) && Anchored(o))
      || (word == "integer" && BoundRenders(Get(o, "minimum")) && BoundRenders(Get(o, "maximum")))
      || word == "boolean"
      || word == "null"
      || (word == "array" && Get(o, "items").Some? && Renders(Get(o, "items").value, depth + 1, csv))
      || (word == "object" && ObjectRenders(o, depth, csv))
    case _ => true
  }

  predicate FormatRenders(o: Members) {
    match Get(o, "format")
    case Some(Str(word)) => word == "uuid" || word == "scenario-change-path" || word == "signed-u32-delta"
    case _ => true
  }

  predicate BoundRenders(bound: Option<Json>) {
    bound.Some? ==> bound.value.Int? && -9007199254740991 <= bound.value.n <= 9007199254740991
  }

  ghost predicate ObjectRenders(o: Members, depth: nat, csv: bool)
    decreases o, 2
  {
    && RequiredRenders(o)
    && PropertiesRender(o, PropertiesOf(o), depth, csv)
    && AdditionalRenders(o, depth, csv)
  }

  ghost predicate AdditionalRenders(o: Members, depth: nat, csv: bool)
    decreases o, 0
  {
    var additional := Get(o, "additionalProperties");
    || additional.None? || additional.value.Bool?
    || (additional.value.Obj? && Renders(additional.value, depth + 1, csv))
  }

  ghost predicate PropertiesRender(o: Members, among: Members, depth: nat, csv: bool)
    decreases o, 1
  {
    forall name | Get(among, name).Some? :: PropertyRenders(o, name, depth, csv)
  }

  ghost predicate PropertyRenders(o: Members, name: string, depth: nat, csv: bool)
    decreases o, 0
  {
    Get(PropertiesOf(o), name).Some? ==> Renders(Get(PropertiesOf(o), name).value, depth + 1, csv)
  }

  predicate RequiredRenders(o: Members) {
    match Get(o, "required")
    case Some(Arr(required)) => NamesDeclared(o, required)
    case _ => true
  }

  /** Every entry is a text and the name of a declared property. */
  predicate NamesDeclared(o: Members, required: Items) {
    required.Item? ==>
      required.head.Str? && Get(PropertiesOf(o), required.head.text).Some? && NamesDeclared(o, required.tail)
  }

  lemma {:induction false} NamesDeclaredSame(o: Members, required: Items)
    ensures NamesDeclared(o, required) <==> RequiredDeclared(required, PropertiesOf(o))
  {
    match required
    case NoItems =>
    case Item(_, tail) => NamesDeclaredSame(o, tail);
  }

  /** The compiler succeeds exactly on these schemas, wherever the guarded value lies. */
  lemma {:induction false} RendersExactly(s: Json, p: Place, depth: nat, csv: bool)
    ensures Compile(s, p, depth, csv).Some? <==> Renders(s, depth, csv)
    decreases s, 0
  {
    if depth <= 32 && s.Obj? {
      if Get(s.members, "$ref").Some? {
        LoneReference(s.members);
      } else {
        OptionsRenderExactly(s.members, p, depth, csv);
        TypeRendersExactly(s.members, p, depth, csv);
        assert Compile(s, p, depth, csv) == CompileNode(s.members, p, depth, csv);
      }
    }
  }

  lemma {:induction false} OptionsRenderExactly(o: Members, p: Place, depth: nat, csv: bool)
    ensures CompileUnion(o, p, depth, csv).Some? <==> OptionsRender(o, depth, csv)
    decreases o, 3
  {
    match Get(o, "oneOf")
    case Some(Arr(options)) => BranchesRenderExactly(options, p, depth, csv);
    case _ =>
  }

  lemma {:induction false} BranchesRenderExactly(options: Items, p: Place, depth: nat, csv: bool)
    ensures CompileOptions(options, p, depth, csv).Some? <==> BranchesRender(options, depth, csv)
    decreases options, 0
  {
    match options
    case NoItems =>
    case Item(head, tail) =>
      RendersExactly(head, p, depth + 1, csv);
      BranchesRenderExactly(tail, p, depth, csv);
  }

  lemma {:induction false} TypeRendersExactly(o: Members, p: Place, depth: nat, csv: bool)
    ensures CompileType(o, p, depth, csv).Some? <==> TypeRenders(o, depth, csv)
    decreases o, 3
  {
    KindsSpelled(o);
    match KindOf(o)
    case ArrayKind =>
      if Get(o, "items").Some? { RendersExactly(Get(o, "items").value, Local(ItemVar(depth)), depth + 1, csv); }
    case ObjectKind => ObjectRendersExactly(o, p, depth, csv);
    case _ =>
  }

  lemma {:induction false} ObjectRendersExactly(o: Members, p: Place, depth: nat, csv: bool)
    ensures CompileObject(o, p, depth, csv).Some? <==> ObjectRenders(o, depth, csv)
    decreases o, 2
  {
    RequiredRendersExactly(o);
    PropertiesRenderExactly(o, PropertiesOf(o), p, depth, csv);
    AdditionalRendersExactly(o, p, depth, csv);
  }

  lemma RequiredRendersExactly(o: Members)
    ensures RequiredDeclared(RequiredOf(o), PropertiesOf(o)) <==> RequiredRenders(o)
  {
    NamesDeclaredSame(o, RequiredOf(o));
  }

  lemma AdditionalRendersExactly(o: Members, p: Place, depth: nat, csv: bool)
    ensures CompileAdditional(o, PropertiesOf(o), p, depth, csv).Some? <==> AdditionalRenders(o, depth, csv)
    decreases o, 1
  {
    var additional := Get(o, "additionalProperties");
    if additional.Some? && additional.value.Obj? {
      RendersExactly(additional.value, Local(MemberVar(depth)), depth + 1, csv);
    }
  }

  lemma PropertyRendersExactly(o: Members, name: string, p: Place, depth: nat, csv: bool)
    ensures (CompileProperty(o, PropertiesOf(o), name, p, depth, csv, true).Some?
             && CompileProperty(o, PropertiesOf(o), name, p, depth, csv, false).Some?) <==>
            PropertyRenders(o, name, depth, csv)
    decreases o, 0
  {
    var all := PropertiesOf(o);
    if Get(all, name).Some? { RendersExactly(Get(all, name).value, Prop(p, Encode(name)), depth + 1, csv); }
  }

  /** Among the properties, those with a constant are tested first. */
  lemma TagsSpelled(child: Json)
    ensures IsTag(child) <==> exists o, c :: child == Obj(o) && Get(o, "const") == Some(c)
  {
    if IsTag(child) { assert child == Obj(child.members); }
  }

  /** Tags and the other properties together are all declared properties. */
  lemma {:induction false} PropertiesRenderExactly(o: Members, rest: Members, p: Place, depth: nat, csv: bool)
    ensures (CompileProperties(o, PropertiesOf(o), rest, p, depth, csv, true).Some?
             && CompileProperties(o, PropertiesOf(o), rest, p, depth, csv, false).Some?) <==>
            PropertiesRender(o, rest, depth, csv)
    decreases o, 1, rest
  {
    match rest
    case NoMembers =>
    case Member(name, _, more) =>
      PropertiesRenderExactly(o, more, p, depth, csv);
      PropertyRendersExactly(o, name, p, depth, csv);
      assert Get(rest, name).Some?;
      assert forall n :: Get(rest, n).Some? <==> n == name || Get(more, n).Some?;
  }

  // ----- what a rendered guard asks -----

  predicate Plain(o: Members) { Get(o, "$ref").None? && Get(o, "const").None? && Get(o, "oneOf").None? }

  /** A rendered guard holds exactly of the values the words of its schema ask for. */
  lemma GuardSpelled(table: map<string, Guard>, defs: Defs, o: Members, p: Place, depth: nat, csv: bool, env: Env,
                     v: Value, fuel: nat)
    requires Linked(table, defs) && Get(o, "$ref").None? && Renders(Obj(o), depth, csv)
    requires Compile(Obj(o), p, depth, csv).Some? ==> CallsWithin(Compile(Obj(o), p, depth, csv).value, table.Keys)
    requires At(p, env) == Some(v) && Meaning(defs, Obj(o), v, fuel, AsWire(csv)).Some?
    ensures Compile(Obj(o), p, depth, csv).Some?
    ensures Eval(table, Compile(Obj(o), p, depth, csv).value, env, fuel) ==
            Yields(NodeRule(defs, o, v, fuel, AsWire(csv)))
  {
    RendersExactly(Obj(o), p, depth, csv);
    Exact(table, defs, Obj(o), p, depth, csv, env, v, fuel);
    NodeSpelled(defs, o, v, fuel, AsWire(csv));
  }

  /** Without references no other condition is left. */
  lemma RootSpelled(o: Members, csv: bool, v: Value)
    requires RefFree(Obj(o)) && Renders(Obj(o), 0, csv)
    ensures Compile(Obj(o), Local(Root), 0, csv).Some?
    ensures Eval(map[], Compile(Obj(o), Local(Root), 0, csv).value, map[Root := v], 0) ==
            Yields(NodeRule(map[], o, v, 0, AsWire(csv)))
  {
    RendersExactly(Obj(o), Local(Root), 0, csv);
    GuardReads(Obj(o), csv, v);
    NodeSpelled(map[], o, v, 0, AsWire(csv));
  }

  /** The two words without keywords of their own, wherever they stand. */
  lemma BareWords(table: map<string, Guard>, o: Members, p: Place, depth: nat, csv: bool, env: Env, v: Value, fuel: nat)
    requires Plain(o) && depth <= 32 && At(p, env) == Some(v)
    ensures Get(o, "type") == Some(Str("boolean")) ==>
              && Compile(Obj(o), p, depth, csv).Some?
              && Eval(table, Compile(Obj(o), p, depth, csv).value, env, fuel) == Yields(v.JsBool?)
    ensures Get(o, "type") == Some(Str("null")) ==>
              && Compile(Obj(o), p, depth, csv).Some?
              && Eval(table, Compile(Obj(o), p, depth, csv).value, env, fuel) == Yields(v.JsNull?)
  {
    KindsSpelled(o);
    if Get(o, "type") == Some(Str("boolean")) { LoneClause(table, o, p, depth, csv, IsBoolean(p), env, fuel); }
    if Get(o, "type") == Some(Str("null")) { LoneClause(table, o, p, depth, csv, IsNull(p), env, fuel); }
  }

  lemma LoneClause(table: map<string, Guard>, o: Members, p: Place, depth: nat, csv: bool, g: Guard, env: Env,
                   fuel: nat)
    requires Plain(o) && depth <= 32 && CompileType(o, p, depth, csv) == Some(One(g))
    ensures Compile(Obj(o), p, depth, csv) == Some(All(One(g)))
    ensures Eval(table, All(One(g)), env, fuel) == Eval(table, g, env, fuel)
  {
    assert CompileConst(o, p) == NoClauses && CompileUnion(o, p, depth, csv) == Some(NoClauses);
    assert Then(NoClauses, Then(NoClauses, One(g))) == One(g);
    assert CompileNode(o, p, depth, csv) == Some(Grouped(One(g)));
    assert EvalAll(table, NoClauses, env, fuel) == Yields(true);
    assert EvalAll(table, One(g), env, fuel) == Eval(table, g, env, fuel);
  }

  /** The other four words, each with its own keywords. */
  lemma WordsSpelled(o: Members, csv: bool, v: Value)
    requires RefFree(Obj(o)) && Plain(o) && Renders(Obj(o), 0, csv)
    ensures Compile(Obj(o), Local(Root), 0, csv).Some?
    ensures var verdict := Eval(map[], Compile(Obj(o), Local(Root), 0, csv).value, map[Root := v], 0);
            && (Get(o, "type") == Some(Str("string")) ==> verdict == Yields(v.JsText? && TextRule(o, v.text, csv)))
            && (Get(o, "type") == Some(Str("integer")) ==> verdict == Yields(v.JsNumber? && IntegerRule(o, v.n)))
            && (Get(o, "type") == Some(Str("array")) ==>
                  verdict == Yields(v.JsArray? && ArrayRule(map[], o, v.items, 0, AsWire(csv))))
            && (Get(o, "type") == Some(Str("object")) ==>
                  verdict == Yields(v.JsObject? && ObjectRule(map[], o, v.fields, 0, AsWire(csv))))
            && (Get(o, "type").None? ==> verdict == Yields(true))
  {
    RootSpelled(o, csv, v);
  }

  /** Every other word of `type` is refused. */
  lemma OtherWordsRefused(o: Members, p: Place, depth: nat, csv: bool, word: string)
    requires Get(o, "$ref").None? && Get(o, "type") == Some(Str(word))
    requires word !in {"string", "integer", "boolean", "null", "array", "object"}
    ensures Compile(Obj(o), p, depth, csv).None?
  {
    RendersExactly(Obj(o), p, depth, csv);
  }
}
