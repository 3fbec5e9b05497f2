/** Which guard functions are emitted, and why every call among them resolves. */
module GuardLinking {
  import opened Options
  import opened Json
  import opened Unicode
  import opened SchemaMeaning
  import opened Guards
  import opened GuardExactness
  import opened ExpansionLaws

  // ----- collecting references -----

  /** Every local reference anywhere in a document; a `$ref` member that is not local is an error. */
  function Collect(j: Json): Option<set<string>> {
    match j
    case Obj(m) =>
      (match Get(m, "$ref")
       case None => CollectMembers(m)
       case Some(reference) =>
         match (LocalTarget(reference), CollectMembers(m))
         case (Some(name), Some(names)) => Some(names + {name})
         case _ => None)
    case Arr(items) => CollectItems(items)
    case _ => Some({})
  }

  function CollectMembers(m: Members): Option<set<string>> {
    match m
    case NoMembers => Some({})
    case Member(_, v, rest) => Merge(Collect(v), CollectMembers(rest))
  }

  function CollectItems(items: Items): Option<set<string>> {
    match items
    case NoItems => Some({})
    case Item(head, tail) => Merge(Collect(head), CollectItems(tail))
  }

  function Merge(a: Option<set<string>>, b: Option<set<string>>): Option<set<string>> {
    if a.Some? && b.Some? then Some(a.value + b.value) else None
  }

  /** Some object of the document has this local reference. */
  predicate Mentions(j: Json, name: string) {
    match j
    case Obj(m) => Get(m, "$ref") == Some(Str("#/$defs/" + name)) || MentionsAmong(m, name)
    case Arr(items) => MentionsIn(items, name)
    case _ => false
  }

  predicate MentionsAmong(m: Members, name: string) {
    m.Member? && (Mentions(m.value, name) || MentionsAmong(m.rest, name))
  }

  predicate MentionsIn(items: Items, name: string) {
    items.Item? && (Mentions(items.head, name) || MentionsIn(items.tail, name))
  }

  /** Some object of the document has a reference that is not local. */
  predicate Strays(j: Json) {
    match j
    case Obj(m) => (Get(m, "$ref").Some? && !LocalReference(Get(m, "$ref").value)) || StraysAmong(m)
    case Arr(items) => StraysIn(items)
    case _ => false
  }

  predicate LocalReference(reference: Json) { reference.Str? && "#/$defs/" <= reference.text }

  predicate StraysAmong(m: Members) { m.Member? && (Strays(m.value) || StraysAmong(m.rest)) }

  predicate StraysIn(items: Items) { items.Item? && (Strays(items.head) || StraysIn(items.tail)) }

  /** Collecting fails exactly on a stray reference, and finds exactly the names that are mentioned. */
  lemma {:induction false} CollectExactly(j: Json, name: string)
    ensures Collect(j).Some? <==> !Strays(j)
    ensures Collect(j).Some? ==> (name in Collect(j).value <==> Mentions(j, name))
  {
    match j
    case Obj(m) =>
      CollectAmongExactly(m, name);
      if Get(m, "$ref").Some? { LocalExactly(Get(m, "$ref").value, name); }
    case Arr(items) => CollectInExactly(items, name);
    case _ =>
  }

  lemma LocalExactly(reference: Json, name: string)
    ensures LocalTarget(reference).Some? <==> LocalReference(reference)
    ensures LocalTarget(reference) == Some(name) <==> reference == Str("#/$defs/" + name)
  {
    var prefix := "#/$defs/";
    assert (prefix + name)[|prefix|..] == name;
    if LocalTarget(reference) == Some(name) { assert reference.text == prefix + reference.text[|prefix|..]; }
  }

  lemma {:induction false} CollectAmongExactly(m: Members, name: string)
    ensures CollectMembers(m).Some? <==> !StraysAmong(m)
    ensures CollectMembers(m).Some? ==> (name in CollectMembers(m).value <==> MentionsAmong(m, name))
  {
    match m
    case NoMembers =>
    case Member(_, v, rest) =>
      CollectExactly(v, name);
      CollectAmongExactly(rest, name);
  }

  lemma {:induction false} CollectInExactly(items: Items, name: string)
    ensures CollectItems(items).Some? <==> !StraysIn(items)
    ensures CollectItems(items).Some? ==> (name in CollectItems(items).value <==> MentionsIn(items, name))
  {
    match items
    case NoItems =>
    case Item(head, tail) =>
      CollectExactly(head, name);
      CollectInExactly(tail, name);
  }

  ghost predicate Holds(names: set<string>, j: Json) {
    Collect(j).Some? && Collect(j).value <= names
  }

  /** A set of definitions that holds every reference of the roots and of its own members. */
  ghost predicate Complete(defs: Defs, roots: seq<Json>, names: set<string>) {
    && (forall i :: 0 <= i < |roots| ==> Holds(names, roots[i]))
    && (forall n :: n in names ==> n in defs && Holds(names, defs[n]))
  }

  /** Succeeds exactly when some complete set exists, and then finds the least one. */
  method GuardReferences(definitions: Defs, roots: seq<Json>) returns (r: Option<set<string>>)
    ensures r.Some? <==> exists names :: Complete(definitions, roots, names)
    ensures r.Some? ==> Complete(definitions, roots, r.value)
    ensures r.Some? ==> forall names :: Complete(definitions, roots, names) ==> r.value <= names
  {
    var references: set<string> := {};
    for i := 0 to |roots|
      invariant forall j :: 0 <= j < i ==> Holds(references, roots[j])
      invariant forall names :: Complete(definitions, roots, names) ==> references <= names
    {
      var found := Collect(roots[i]);
      if found.None? {
        assert forall names :: !Holds(names, roots[i]);
        return None;
      }
      assert forall names :: Complete(definitions, roots, names) ==> Holds(names, roots[i]);
      references := references + found.value;
    }
    var expanded: set<string> := {};
    while references - expanded != {}
      invariant expanded <= references && expanded <= definitions.Keys
      invariant forall j :: 0 <= j < |roots| ==> Holds(references, roots[j])
      invariant forall n :: n in expanded ==> Holds(references, definitions[n])
      invariant forall names :: Complete(definitions, roots, names) ==> references <= names
      decreases definitions.Keys - expanded
    {
      var name :| name in references - expanded;
      assert forall names :: Complete(definitions, roots, names) ==> name in names;
      if name !in definitions { return None; }
      var found := Collect(definitions[name]);
      if found.None? {
        assert forall names :: !Holds(names, definitions[name]);
        return None;
      }
      assert forall names :: Complete(definitions, roots, names) ==> Holds(names, definitions[name]);
      references := references + found.value;
      expanded := expanded + {name};
    }
    assert Complete(definitions, roots, references);
    r := Some(references);
  }

  // ----- calls are references, and references are collected -----

  lemma {:induction false} RefsCollected(s: Json)
    requires Collect(s).Some?
    ensures Refs(s) <= Collect(s).value
  {
    if s.Obj? && Get(s.members, "$ref").None? { KeywordRefsCollected(s.members); }
  }

  lemma {:induction false} KeywordRefsCollected(m: Members)
    requires CollectMembers(m).Some?
    ensures KeywordRefs(m) <= CollectMembers(m).value
  {
    if m.NoMembers? {
    } else {
      KeywordRefsCollected(m.rest);
      var value := m.value;
      if m.name == "properties" && value.Obj? {
        ChildRefsCollected(value.members);
      } else if m.name == "items" || (m.name == "additionalProperties" && value.Obj?) {
        RefsCollected(value);
      } else if m.name == "oneOf" && value.Arr? {
        BranchRefsCollected(value.items);
      }
    }
  }

  lemma {:induction false} ChildRefsCollected(m: Members)
    requires CollectMembers(m).Some?
    ensures ChildRefs(m) <= CollectMembers(m).value
  {
    if m.NoMembers? {
    } else {
      RefsCollected(m.value);
      ChildRefsCollected(m.rest);
    }
  }

  lemma {:induction false} BranchRefsCollected(items: Items)
    requires CollectItems(items).Some?
    ensures BranchRefs(items) <= CollectItems(items).value
  {
    if items.NoItems? {
    } else {
      RefsCollected(items.head);
      BranchRefsCollected(items.tail);
    }
  }

  /** A compiled guard calls only what its schema refers to. */
  lemma {:induction false} CallsAreRefs(s: Json, p: Place, depth: nat, csv: bool, names: set<string>)
    requires Compile(s, p, depth, csv).Some? && Refs(s) <= names
    ensures CallsWithin(Compile(s, p, depth, csv).value, names)
    decreases s, 0
  {
    if Get(s.members, "$ref").None? { NodeCalls(s.members, p, depth, csv, names); }
  }

  lemma {:induction false} NodeCalls(o: Members, p: Place, depth: nat, csv: bool, names: set<string>)
    requires CompileNode(o, p, depth, csv).Some? && KeywordRefs(o) <= names
    ensures CallsWithin(CompileNode(o, p, depth, csv).value, names)
    decreases o, 4
  {
    var first, union, typed := CompileConst(o, p), CompileUnion(o, p, depth, csv).value,
        CompileType(o, p, depth, csv).value;
    WithinThen(first, Then(union, typed), names);
    WithinThen(union, typed, names);
    match Get(o, "oneOf") {
      case Some(Arr(options)) =>
        RefsAt(o, "oneOf");
        OptionCalls(options, p, depth, csv, names);
      case _ =>
    }
    TypeCalls(o, p, depth, csv, names);
  }

  lemma {:induction false} OptionCalls(options: Items, p: Place, depth: nat, csv: bool, names: set<string>)
    requires CompileOptions(options, p, depth, csv).Some? && BranchRefs(options) <= names
    ensures ClausesWithin(CompileOptions(options, p, depth, csv).value, names)
    decreases options, 0
  {
    if options.NoItems? {
    } else {
      CallsAreRefs(options.head, p, depth + 1, csv, names);
      OptionCalls(options.tail, p, depth, csv, names);
    }
  }

  lemma {:induction false} TypeCalls(o: Members, p: Place, depth: nat, csv: bool, names: set<string>)
    requires CompileType(o, p, depth, csv).Some? && KeywordRefs(o) <= names
    ensures ClausesWithin(CompileType(o, p, depth, csv).value, names)
    decreases o, 3
  {
    match KindOf(o)
    case StringKind => TextCalls(o, p, csv, names);
    case IntegerKind => IntegerCalls(o, p, names);
    case ArrayKind => ArrayCalls(o, p, depth, csv, names);
    case ObjectKind => ObjectCalls(o, p, depth, csv, names);
    case _ =>
  }

  lemma TextCalls(o: Members, p: Place, csv: bool, names: set<string>)
    requires CompileText(o, p, csv).Some?
    ensures ClausesWithin(CompileText(o, p, csv).value, names)
  {
    WithinThen(CompileFormat(o, p, csv).value, CompilePattern(o, p).value, names);
  }

  lemma {:induction false} ArrayCalls(o: Members, p: Place, depth: nat, csv: bool, names: set<string>)
    requires CompileArray(o, p, depth, csv).Some? && KeywordRefs(o) <= names
    ensures ClausesWithin(CompileArray(o, p, depth, csv).value, names)
    decreases o, 2
  {
    RefsAt(o, "items");
    CallsAreRefs(Get(o, "items").value, Local(ItemVar(depth)), depth + 1, csv, names);
  }

  lemma {:induction false} ObjectCalls(o: Members, p: Place, depth: nat, csv: bool, names: set<string>)
    requires CompileObject(o, p, depth, csv).Some? && KeywordRefs(o) <= names
    ensures ClausesWithin(CompileObject(o, p, depth, csv).value, names)
    decreases o, 2
  {
    var all := PropertiesOf(o);
    var tags := CompileProperties(o, all, all, p, depth, csv, true).value;
    var others := CompileProperties(o, all, all, p, depth, csv, false).value;
    var rest := CompileAdditional(o, all, p, depth, csv).value;
    WithinThen(tags, Then(others, rest), names);
    WithinThen(others, rest, names);
    assert ChildRefs(all) <= names by { if all.Member? { RefsAt(o, "properties"); } }
    PropertiesCalls(o, all, p, depth, csv, true, names);
    PropertiesCalls(o, all, p, depth, csv, false, names);
    AdditionalCalls(o, p, depth, csv, names);
  }

  lemma IntegerCalls(o: Members, p: Place, names: set<string>)
    requires CompileInteger(o, p).Some?
    ensures ClausesWithin(CompileInteger(o, p).value, names)
  {
    var min, max := Get(o, "minimum"), Get(o, "maximum");
    WithinThen(if min.Some? then One(AtLeast(p, min.value.n)) else NoClauses,
               if max.Some? then One(AtMost(p, max.value.n)) else NoClauses, names);
  }

  lemma {:induction false} AdditionalCalls(o: Members, p: Place, depth: nat, csv: bool, names: set<string>)
    requires CompileAdditional(o, PropertiesOf(o), p, depth, csv).Some? && KeywordRefs(o) <= names
    ensures ClausesWithin(CompileAdditional(o, PropertiesOf(o), p, depth, csv).value, names)
    decreases o, 1
  {
    var additional := Get(o, "additionalProperties");
    if additional.Some? && additional.value.Obj? {
      RefsAt(o, "additionalProperties");
      CallsAreRefs(additional.value, Local(MemberVar(depth)), depth + 1, csv, names);
    }
  }

  lemma {:induction false} PropertiesCalls(o: Members, rest: Members, p: Place, depth: nat, csv: bool, tagged: bool,
                                           names: set<string>)
    requires CompileProperties(o, PropertiesOf(o), rest, p, depth, csv, tagged).Some?
    requires ChildRefs(PropertiesOf(o)) <= names
    ensures ClausesWithin(CompileProperties(o, PropertiesOf(o), rest, p, depth, csv, tagged).value, names)
    decreases o, 1, rest
  {
    if rest.NoMembers? {
    } else {
      var all, name := PropertiesOf(o), rest.name;
      var here := CompileProperty(o, all, name, p, depth, csv, tagged).value;
      var more := CompileProperties(o, all, rest.rest, p, depth, csv, tagged).value;
      WithinThen(here, more, names);
      PropertiesCalls(o, rest.rest, p, depth, csv, tagged, names);
      if InTurn(o, name, tagged) {
        var child := Get(all, name).value;
        ChildRefsAt(all, name);
        CallsAreRefs(child, Prop(p, Encode(name)), depth + 1, csv, names);
        PropertyCalls(p, Encode(name), IsRequired(RequiredOf(o), name),
            Compile(child, Prop(p, Encode(name)), depth + 1, csv).value, names);
      }
    }
  }

  /** The emitted guard functions: one for each collected definition. */
  function Emit(defs: Defs, names: set<string>): (table: map<string, Guard>)
    requires forall n :: n in names ==> n in defs && Compile(defs[n], Local(Root), 0, false).Some?
  {
    map n | n in names :: Compile(defs[n], Local(Root), 0, false).value
  }

  /** Every emitted call resolves. */
  lemma EmittedLink(defs: Defs, roots: seq<Json>, names: set<string>, root: Json, p: Place, depth: nat)
    requires Complete(defs, roots, names) && root in roots
    requires forall n :: n in names ==> n in defs && Compile(defs[n], Local(Root), 0, false).Some?
    requires Compile(root, p, depth, false).Some?
    ensures Linked(Emit(defs, names), defs)
    ensures CallsWithin(Compile(root, p, depth, false).value, Emit(defs, names).Keys)
  {
    var table := Emit(defs, names);
    assert table.Keys == names;
    forall n | n in table ensures CallsWithin(table[n], table.Keys) {
      assert Holds(names, defs[n]);
      RefsCollected(defs[n]);
      CallsAreRefs(defs[n], Local(Root), 0, false, names);
    }
    var i :| 0 <= i < |roots| && roots[i] == root;
    assert Holds(names, roots[i]);
    RefsCollected(root);
    CallsAreRefs(root, p, depth, false, names);
  }
}
