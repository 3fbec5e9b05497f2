/**
 The restricted schema vocabulary, keyword by keyword: the words as they are written in a schema, and what each of them
 asks of a value.
 */
module Vocabulary {
  import opened Expansion
  import opened Formats
  import opened GuardExactness
  import opened Json
  import opened Numbers
  import opened Options
  import opened SchemaMeaning
  import opened Unicode
  import opened Values

  // ----- references -----

  predicate Letter(c: char) { 'a' <= c <= 'z' || 'A' <= c <= 'Z' }

  predicate Identifier(name: string) {
    1 <= |name| <= 160 && Letter(name[0]) && forall c | c in name :: Letter(c) || '0' <= c <= '9' || c == '_'
  }

  function Reference(name: string): Json { Str("#/$defs/" + name) }

  lemma IdentifiersSpelled(name: string)
    ensures ValidIdentifier(name) <==> Identifier(name)
  {
    if ValidIdentifier(name) {
      forall c | c in name ensures Letter(c) || '0' <= c <= '9' || c == '_' {
        var i :| 0 <= i < |name| && name[i] == c;
      }
    }
    assert forall i | 0 <= i < |name| :: name[i] in name;
  }

  /** A `$ref` value names a definition exactly when it is `#/$defs/` and an identifier. */
  lemma ReferencesSpelled(r: Json, name: string)
    ensures RefName(r) == Some(name) <==> r == Reference(name) && Identifier(name)
  {
    IdentifiersSpelled(name);
    var prefix := "#/$defs/";
    assert (prefix + name)[|prefix|..] == name;
    if RefName(r) == Some(name) { assert r.text == prefix + r.text[|prefix|..]; }
  }

  /** An object with a reference is well formed when it is that reference alone. */
  lemma LoneReference(m: Members)
    requires Get(m, "$ref").Some?
    ensures (exists name :: Identifier(name) && m == Member("$ref", Reference(name), NoMembers)) <==>
            RefName(Get(m, "$ref").value).Some? && m.rest.NoMembers?
  {
    var r := Get(m, "$ref").value;
    if RefName(r).Some? && m.rest.NoMembers? {
      ReferencesSpelled(r, RefName(r).value);
      assert m == Member("$ref", Reference(RefName(r).value), NoMembers);
    }
    if exists name :: Identifier(name) && m == Member("$ref", Reference(name), NoMembers) {
      var name :| Identifier(name) && m == Member("$ref", Reference(name), NoMembers);
      ReferencesSpelled(r, name);
    }
  }

  /** A lone reference expands exactly when its definition does, to the same output. */
  lemma ReferenceExpands(defs: Defs, blocked: set<string>, name: string)
    requires Identifier(name) && name in defs && name !in blocked
    ensures var whole := Schema(defs, blocked, Obj(Member("$ref", Reference(name), NoMembers)));
            var target := Schema(defs, blocked + {name}, defs[name]);
            && (whole.Planned? <==> target.Planned?)
            && (whole.Planned? ==> whole.out == target.out && whole.bill.names == target.bill.names + {name})
  {
    ReferencesSpelled(Reference(name), name);
  }

  /** Everything else under `$ref` is refused: siblings, other texts, unknown names, and names being expanded. */
  lemma OtherReferencesRefused(defs: Defs, blocked: set<string>, m: Members)
    requires Get(m, "$ref").Some?
    requires forall name | Identifier(name) && name in defs && name !in blocked ::
               m != Member("$ref", Reference(name), NoMembers)
    ensures Schema(defs, blocked, Obj(m)).Rejected?
  {
    var r := Get(m, "$ref").value;
    if Target(defs, m).Some? {
      var name := Target(defs, m).value;
      ReferencesSpelled(r, name);
      assert m == Member("$ref", Reference(name), NoMembers) || name in blocked;
    }
  }

  // ----- keywords with a count, a bound or a word -----

  /** A count given as an integer that fits 64 bits without a sign, else the default. */
  function Given(j: Option<Json>, default: nat): nat {
    if j.Some? && j.value.Int? && 0 <= j.value.n <= 18446744073709551615 then j.value.n else default
  }

  predicate FormatRule(o: Members, t: Text, csv: bool) {
    && (Get(o, "format") == Some(Str("uuid")) ==> IsUuid(t, csv))
    && (Get(o, "format") == Some(Str("scenario-change-path")) ==> IsChangePath(t))
    && (Get(o, "format") == Some(Str("signed-u32-delta")) ==> IsDelta(t))
  }

  /** A pattern is a caret and a literal prefix. */
  ghost predicate PatternRule(o: Members, t: Text) {
    forall prefix: string | Get(o, "pattern") == Some(Str("^" + prefix)) :: Encode(prefix) <= t
  }

  ghost predicate TextRule(o: Members, t: Text, csv: bool) {
    && Points(t).Some?
    && Given(Get(o, "minLength"), 0) <= |Points(t).value| <= Given(Get(o, "maxLength"), 1048576)
    && FormatRule(o, t, csv) && PatternRule(o, t)
  }

  /** The pattern keyword is absent, no text, or has its caret. */
  predicate Anchored(o: Members) {
    match Get(o, "pattern")
    case Some(Str(p)) => p != "" && p[0] == '^'
    case _ => true
  }

  predicate TextsAnchored(o: Members) { Get(o, "type") == Some(Str("string")) ==> Anchored(o) }

  predicate IntegerRule(o: Members, r: real) {
    && r == r.Floor as real && -9007199254740991 <= r.Floor <= 9007199254740991
    && (match Get(o, "minimum") case Some(Int(k)) => k as real <= r case _ => true)
    && (match Get(o, "maximum") case Some(Int(k)) => r <= k as real case _ => true)
  }

  lemma PatternSpelled(o: Members, t: Text)
    requires Anchored(o)
    ensures PatternOk(o, t) <==> PatternRule(o, t)
  {
    match Get(o, "pattern")
    case Some(Str(p)) =>
      assert p == "^" + p[1..];
      forall prefix: string | p == "^" + prefix ensures prefix == p[1..] { assert ("^" + prefix)[1..] == prefix; }
    case _ =>
  }

  lemma TextSpelled(o: Members, t: Text, csv: bool)
    requires Anchored(o)
    ensures TextOk(o, t, csv) <==> TextRule(o, t, csv)
  {
    PatternSpelled(o, t);
  }

  lemma IntegerSpelled(o: Members, r: real)
    ensures IntegerOk(o, r) <==> IntegerRule(o, r)
  {
  }

  // ----- containers, element by element and key by key -----

  /** The elements an array holds. */
  function HeldIn(items: Values): seq<Value> {
    match items
    case NoValues => []
    case More(v, tail) => [v] + HeldIn(tail)
    case Hole(tail) => HeldIn(tail)
  }

  function BranchesOf(options: Items): seq<Json> {
    match options
    case NoItems => []
    case Item(head, tail) => [head] + BranchesOf(tail)
  }

  predicate Listed(items: Items, name: string) { items.Item? && (items.head == Str(name) || Listed(items.tail, name)) }

  ghost predicate Accepted(defs: Defs, s: Json, v: Value, fuel: nat, how: Reading) {
    Meaning(defs, s, v, fuel, how) == Some(true)
  }

  ghost predicate ArrayRule(defs: Defs, o: Members, items: Values, fuel: nat, how: Reading) {
    && Given(Get(o, "minItems"), 0) <= Length(items) <= Given(Get(o, "maxItems"), 1000000)
    && forall each, x | Get(o, "items") == Some(each) && x in HeldIn(items) :: Accepted(defs, each, x, fuel, how)
  }

  ghost predicate Declared(o: Members, name: string, child: Json) {
    exists m :: Get(o, "properties") == Some(Obj(m)) && Get(m, name) == Some(child)
  }

  ghost predicate Undeclared(o: Members, key: Text) {
    forall name, child | Declared(o, name, child) :: Encode(name) != key
  }

  /** What an own property has to satisfy: its declared schema, or the rule for additional members. */
  ghost predicate KeyRule(defs: Defs, o: Members, key: Text, fields: Fields, fuel: nat, how: Reading)
    requires Own(fields, key).Some?
  {
    var v := Own(fields, key).value;
    && (forall name, child | Declared(o, name, child) && Encode(name) == key :: Accepted(defs, child, v, fuel, how))
    && (Undeclared(o, key) ==>
          match Get(o, "additionalProperties")
          case Some(Bool(b)) => b
          case Some(additional) => Accepted(defs, additional, v, fuel, how)
          case None => true)
  }

  ghost predicate AllListed(required: Items, fields: Fields) {
    forall name | Listed(required, name) :: Own(fields, Encode(name)).Some?
  }

  ghost predicate RequiredRule(o: Members, fields: Fields) {
    match Get(o, "required")
    case Some(Arr(required)) => AllListed(required, fields)
    case _ => true
  }

  ghost predicate ObjectRule(defs: Defs, o: Members, fields: Fields, fuel: nat, how: Reading) {
    && RequiredRule(o, fields)
    && (forall key | Own(fields, key).Some? :: KeyRule(defs, o, key, fields, fuel, how))
  }

  /** Exactly one place in the list holds. */
  predicate ExactlyOne(verdicts: seq<bool>) {
    exists i | 0 <= i < |verdicts| :: verdicts[i] && forall j | 0 <= j < |verdicts| && verdicts[j] :: j == i
  }

  ghost function Verdicts(defs: Defs, branches: seq<Json>, v: Value, fuel: nat, how: Reading): (r: seq<bool>)
    ensures |r| == |branches|
    ensures forall i | 0 <= i < |r| :: r[i] <==> Accepted(defs, branches[i], v, fuel, how)
  {
    seq(|branches|, i requires 0 <= i < |branches| => Accepted(defs, branches[i], v, fuel, how))
  }

  ghost predicate OneOfRule(defs: Defs, options: Items, v: Value, fuel: nat, how: Reading) {
    ExactlyOne(Verdicts(defs, BranchesOf(options), v, fuel, how))
  }

  // ----- a whole node -----

  ghost predicate TypeRule(defs: Defs, o: Members, v: Value, fuel: nat, how: Reading) {
    && (Get(o, "type") == Some(Str("string")) ==> v.JsText? && TextRule(o, v.text, how.csv))
    && (Get(o, "type") == Some(Str("integer")) ==> v.JsNumber? && IntegerRule(o, v.n))
    && (Get(o, "type") == Some(Str("boolean")) ==> v.JsBool?)
    && (Get(o, "type") == Some(Str("null")) ==> v.JsNull?)
    && (Get(o, "type") == Some(Str("array")) ==> v.JsArray? && ArrayRule(defs, o, v.items, fuel, how))
    && (Get(o, "type") == Some(Str("object")) ==> v.JsObject? && ObjectRule(defs, o, v.fields, fuel, how))
  }

  ghost predicate NodeRule(defs: Defs, o: Members, v: Value, fuel: nat, how: Reading) {
    && (forall c | Get(o, "const") == Some(c) :: if how.AsJson? then SameJson(c, v) else Identical(c, v))
    && (forall options | Get(o, "oneOf") == Some(Arr(options)) :: OneOfRule(defs, options, v, fuel, how))
    && TypeRule(defs, o, v, fuel, how)
  }

  // ----- the meaning is what the words say -----

  function CountTrues(verdicts: seq<bool>): nat {
    if verdicts == [] then 0 else CountTrues(verdicts[1..]) + if verdicts[0] then 1 else 0
  }

  lemma {:induction false} NoneCounted(verdicts: seq<bool>)
    ensures CountTrues(verdicts) == 0 <==> forall i | 0 <= i < |verdicts| :: !verdicts[i]
  {
    if verdicts == [] {
    } else {
      var rest := verdicts[1..];
      NoneCounted(rest);
      assert forall i | 0 < i < |verdicts| :: verdicts[i] == rest[i - 1];
      assert forall i | 0 <= i < |rest| :: rest[i] == verdicts[i + 1];
    }
  }

  /** Counting one is having exactly one place. */
  lemma {:induction false} OneCounted(verdicts: seq<bool>)
    ensures CountTrues(verdicts) == 1 <==> ExactlyOne(verdicts)
  {
    if verdicts == [] {
    } else {
      var rest := verdicts[1..];
      OneCounted(rest);
      NoneCounted(rest);
      assert forall i | 0 < i < |verdicts| :: verdicts[i] == rest[i - 1];
      assert forall i | 0 <= i < |rest| :: rest[i] == verdicts[i + 1];
      FirstOrLater(verdicts);
    }
  }

  lemma FirstOrLater(verdicts: seq<bool>)
    requires verdicts != []
    ensures ExactlyOne(verdicts) <==>
            if verdicts[0] then forall i | 0 < i < |verdicts| :: !verdicts[i] else ExactlyOne(verdicts[1..])
  {
    var rest := verdicts[1..];
    if !verdicts[0] {
      if ExactlyOne(verdicts) {
        var i :| 0 <= i < |verdicts| && verdicts[i] && forall j | 0 <= j < |verdicts| && verdicts[j] :: j == i;
        assert rest[i - 1];
        forall j | 0 <= j < |rest| && rest[j] ensures j == i - 1 { assert verdicts[j + 1]; }
      }
      if ExactlyOne(rest) {
        var i :| 0 <= i < |rest| && rest[i] && forall j | 0 <= j < |rest| && rest[j] :: j == i;
        assert verdicts[i + 1];
        forall j | 0 <= j < |verdicts| && verdicts[j] ensures j == i + 1 { assert rest[j - 1]; }
      }
    }
  }

  lemma {:induction false} MatchingCounts(defs: Defs, options: Items, v: Value, fuel: nat, how: Reading)
    requires Matching(defs, options, v, fuel, how).Some?
    ensures Matching(defs, options, v, fuel, how).value
            == CountTrues(Verdicts(defs, BranchesOf(options), v, fuel, how))
    decreases options
  {
    match options
    case NoItems =>
    case Item(head, tail) =>
      MatchingCounts(defs, tail, v, fuel, how);
      assert Verdicts(defs, BranchesOf(options), v, fuel, how)[1..] == Verdicts(defs, BranchesOf(tail), v, fuel, how);
  }

  lemma {:induction false} ElementsSpelled(defs: Defs, o: Members, each: Json, items: Values, fuel: nat, how: Reading)
    requires (o decreases to each) && ItemsMeaning(defs, o, each, items, fuel, how).Some?
    ensures ItemsMeaning(defs, o, each, items, fuel, how).value <==>
            forall x | x in HeldIn(items) :: Accepted(defs, each, x, fuel, how)
    decreases items
  {
    match items
    case NoValues =>
    case More(head, tail) =>
      ElementsSpelled(defs, o, each, tail, fuel, how);
      AllHeldIn(defs, each, head, tail, fuel, how);
    case Hole(tail) => ElementsSpelled(defs, o, each, tail, fuel, how);
  }

  lemma AllHeldIn(defs: Defs, each: Json, head: Value, tail: Values, fuel: nat, how: Reading)
    ensures (forall x | x in HeldIn(More(head, tail)) :: Accepted(defs, each, x, fuel, how)) <==>
            Accepted(defs, each, head, fuel, how) && forall x | x in HeldIn(tail) :: Accepted(defs, each, x, fuel, how)
  {
    var all := HeldIn(More(head, tail));
    assert all == [head] + HeldIn(tail);
    assert head in all;
    assert forall x | x in HeldIn(tail) :: x in all;
  }

  lemma {:induction false} RequiredSpelled(required: Items, fields: Fields)
    ensures RequiredOk(required, fields) <==> AllListed(required, fields)
  {
    match required
    case NoItems =>
    case Item(head, tail) =>
      RequiredSpelled(tail, fields);
      ListedFirst(head, tail, fields);
  }

  lemma ListedFirst(head: Json, tail: Items, fields: Fields)
    ensures AllListed(Item(head, tail), fields) <==>
            (head.Str? ==> Own(fields, Encode(head.text)).Some?) && AllListed(tail, fields)
  {
    assert forall name :: Listed(Item(head, tail), name) <==> head == Str(name) || Listed(tail, name);
    if head.Str? { assert Listed(Item(head, tail), head.text); }
  }

  // ----- objects -----

  /** The declared schema of a key, if there is one. */
  lemma DeclaredKey(o: Members, key: Text)
    ensures Undeclared(o, key) <==> PropertyFor(PropertiesOf(o), key).None?
    ensures forall name, child | Declared(o, name, child) && Encode(name) == key ::
              PropertyFor(PropertiesOf(o), key) == Some(child)
  {
    var all := PropertiesOf(o);
    forall name, child | Declared(o, name, child) ensures PropertyFor(all, Encode(name)) == Some(child) {
      PropertyByName(all, name);
    }
    if PropertyFor(all, key).Some? {
      var name := NameOf(all, key);
      assert Declared(o, name, Get(all, name).value);
    }
  }

  lemma FieldSpelled(defs: Defs, o: Members, key: Text, fields: Fields, fuel: nat, how: Reading)
    requires Own(fields, key).Some? && FieldMeaning(defs, o, key, fields, fuel, how).Some?
    ensures FieldMeaning(defs, o, key, fields, fuel, how) == Some(true) <==> KeyRule(defs, o, key, fields, fuel, how)
  {
    DeclaredKey(o, key);
    if PropertyFor(PropertiesOf(o), key).Some? {
      var name := NameOf(PropertiesOf(o), key);
      assert Declared(o, name, Get(PropertiesOf(o), name).value);
    }
  }

  lemma FieldsSpelled(defs: Defs, o: Members, fields: Fields, fuel: nat, how: Reading)
    requires FieldsMeaning(defs, o, fields, fields, fuel, how).Some?
    ensures FieldsMeaning(defs, o, fields, fields, fuel, how).value <==>
            forall key | Own(fields, key).Some? :: KeyRule(defs, o, key, fields, fuel, how)
  {
    forall key | Own(fields, key).Some?
      ensures FieldMeaning(defs, o, key, fields, fuel, how).Some?
      ensures FieldMeaning(defs, o, key, fields, fuel, how) == Some(true) <==> KeyRule(defs, o, key, fields, fuel, how)
      ensures FieldsMeaning(defs, o, fields, fields, fuel, how).value ==>
              FieldMeaning(defs, o, key, fields, fuel, how).value
    {
      FieldDecided(defs, o, fields, fields, key, fuel, how);
      FieldSpelled(defs, o, key, fields, fuel, how);
    }
    if !FieldsMeaning(defs, o, fields, fields, fuel, how).value {
      var key := BadField(defs, o, fields, fields, fuel, how);
      assert !KeyRule(defs, o, key, fields, fuel, how);
    }
  }

  // ----- the words of `type` -----

  lemma KindsSpelled(o: Members)
    ensures KindOf(o).StringKind? <==> Get(o, "type") == Some(Str("string"))
    ensures KindOf(o).IntegerKind? <==> Get(o, "type") == Some(Str("integer"))
    ensures KindOf(o).NumberKind? <==> Get(o, "type") == Some(Str("number"))
    ensures KindOf(o).BooleanKind? <==> Get(o, "type") == Some(Str("boolean"))
    ensures KindOf(o).NullKind? <==> Get(o, "type") == Some(Str("null"))
    ensures KindOf(o).ArrayKind? <==> Get(o, "type") == Some(Str("array"))
    ensures KindOf(o).ObjectKind? <==> Get(o, "type") == Some(Str("object"))
    ensures KindOf(o).Untyped? <==> Get(o, "type").None? || !Get(o, "type").value.Str?
  {
  }

  lemma ArraySpelled(defs: Defs, o: Members, v: Value, fuel: nat, how: Reading)
    requires ArrayMeaning(defs, o, v, fuel, how).Some?
    ensures ArrayMeaning(defs, o, v, fuel, how).value <==> v.JsArray? && ArrayRule(defs, o, v.items, fuel, how)
  {
    if v.JsArray? { ElementsSpelled(defs, o, Get(o, "items").value, v.items, fuel, how); }
  }

  lemma ObjectSpelled(defs: Defs, o: Members, v: Value, fuel: nat, how: Reading)
    requires ObjectMeaning(defs, o, v, fuel, how).Some?
    ensures ObjectMeaning(defs, o, v, fuel, how).value <==> v.JsObject? && ObjectRule(defs, o, v.fields, fuel, how)
  {
    if v.JsObject? {
      RequiredSpelled(RequiredOf(o), v.fields);
      FieldsSpelled(defs, o, v.fields, fuel, how);
    }
  }

  lemma TypeSpelled(defs: Defs, o: Members, v: Value, fuel: nat, how: Reading)
    requires TextsAnchored(o) && TypeMeaning(defs, o, v, fuel, how).Some?
    ensures TypeMeaning(defs, o, v, fuel, how).value <==> TypeRule(defs, o, v, fuel, how)
  {
    KindsSpelled(o);
    match KindOf(o)
    case StringKind => if v.JsText? { TextSpelled(o, v.text, how.csv); }
    case IntegerKind => if v.JsNumber? { IntegerSpelled(o, v.n); }
    case ArrayKind => ArraySpelled(defs, o, v, fuel, how);
    case ObjectKind => ObjectSpelled(defs, o, v, fuel, how);
    case _ =>
  }

  lemma UnionSpelled(defs: Defs, o: Members, v: Value, fuel: nat, how: Reading)
    requires UnionMeaning(defs, o, v, fuel, how).Some?
    ensures UnionMeaning(defs, o, v, fuel, how).value <==>
            forall options | Get(o, "oneOf") == Some(Arr(options)) :: OneOfRule(defs, options, v, fuel, how)
  {
    match Get(o, "oneOf")
    case Some(Arr(options)) =>
      MatchingCounts(defs, options, v, fuel, how);
      OneCounted(Verdicts(defs, BranchesOf(options), v, fuel, how));
    case _ =>
  }

  /** A schema without a reference accepts exactly what its words ask for. */
  lemma NodeSpelled(defs: Defs, o: Members, v: Value, fuel: nat, how: Reading)
    requires Get(o, "$ref").None? && TextsAnchored(o) && Meaning(defs, Obj(o), v, fuel, how).Some?
    ensures Meaning(defs, Obj(o), v, fuel, how).value <==> NodeRule(defs, o, v, fuel, how)
  {
    assert NodeMeaning(defs, o, v, fuel, how).Some?;
    UnionSpelled(defs, o, v, fuel, how);
    TypeSpelled(defs, o, v, fuel, how);
  }

  /** A reference means its definition. */
  lemma ReferenceSpelled(defs: Defs, name: string, rest: Members, v: Value, fuel: nat, how: Reading)
    requires Identifier(name) && name in defs && fuel > 0
    ensures Meaning(defs, Obj(Member("$ref", Reference(name), rest)), v, fuel, how)
            == Meaning(defs, defs[name], v, fuel - 1, how)
  {
    ReferencesSpelled(Reference(name), name);
  }

  // ----- equality with a constant -----

  /** A scalar constant equals one value and no other; `===` finds the same one, rounded for a whole number. */
  lemma ScalarsEqual(c: Json, v: Value)
    ensures c.Null? ==> (SameJson(c, v) <==> v == JsNull) && (Identical(c, v) <==> v == JsNull)
    ensures c.Bool? ==> (SameJson(c, v) <==> v == JsBool(c.b)) && (Identical(c, v) <==> v == JsBool(c.b))
    ensures c.Str? ==>
              (SameJson(c, v) <==> v == JsText(Encode(c.text))) && (Identical(c, v) <==> v == JsText(Encode(c.text)))
    ensures c.Float? ==> (SameJson(c, v) <==> v == JsNumber(c.value)) && (Identical(c, v) <==> v == JsNumber(c.value))
    ensures c.Int? ==> (SameJson(c, v) <==> v.JsNumber? && v.n == c.n as real)
    ensures c.Int? ==> (Identical(c, v) <==> v.JsNumber? && v.n == Nearest(c.n) as real)
    ensures c.Arr? || c.Obj? ==> !Identical(c, v)
  {
  }
}
