/** The in-place expander and its resource limits. */
module Expander {
  import opened Options
  import opened Json
  import opened Expansion

  const MAX_DEPTH: nat := 32
  const MAX_NODES: nat := 100_000
  const MAX_BYTES: nat := 0x100_0000

  datatype Account = Account(stack: seq<string>, used: set<string>, nodes: nat, remaining: nat)

  /** Every limit checked on the way of an expansion with this bill. */
  predicate Covers(a: Account, depth: nat, bill: Bill) {
    && a.nodes + bill.cost.calls <= MAX_NODES
    && bill.cost.bytes <= a.remaining
    && depth + bill.span.height <= MAX_DEPTH
    && |a.stack| + bill.span.refs <= MAX_DEPTH
  }

  function Spend(a: Account, bill: Bill): Account
    requires bill.cost.bytes <= a.remaining
  {
    a.(used := a.used + bill.names, nodes := a.nodes + bill.cost.calls, remaining := a.remaining - bill.cost.bytes)
  }

  function Elements(s: seq<string>): set<string> { set x | x in s }

  /** A finished part followed by what the rest plans. */
  function Glue(out: Members, spent: Bill, rest: Outcome<Members>): Outcome<Members> {
    match rest
    case Rejected => Rejected
    case Planned(m, bill) => Planned(Append(out, m), Join(spent, bill))
  }

  function GlueItems(out: Items, spent: Bill, rest: Outcome<Items>): Outcome<Items> {
    match rest
    case Rejected => Rejected
    case Planned(items, bill) => Planned(Concat(out, items), Join(spent, bill))
  }

  lemma SpendBytes(a: Account, n: nat)
    requires n <= a.remaining
    ensures Spend(a, Bytes(n)) == a.(remaining := a.remaining - n)
  {
    assert a.used + {} == a.used;
  }

  lemma SpendNothing(a: Account)
    ensures Spend(a, NOTHING) == a
  {
    SpendBytes(a, 0);
  }

  lemma GlueEnds(out: Members, spent: Bill, rest: Outcome<Members>)
    ensures Glue(NoMembers, NOTHING, rest) == rest
    ensures Glue(out, spent, Planned(NoMembers, NOTHING)) == Planned(out, spent)
  {
    AppendNothing(out);
    assert spent.names + {} == spent.names;
    if rest.Planned? { assert {} + rest.bill.names == rest.bill.names; }
  }

  lemma GlueItemsEnds(out: Items, spent: Bill, rest: Outcome<Items>)
    ensures GlueItems(NoItems, NOTHING, rest) == rest
    ensures GlueItems(out, spent, Planned(NoItems, NOTHING)) == Planned(out, spent)
  {
    ConcatNothing(out);
    assert spent.names + {} == spent.names;
    if rest.Planned? { assert {} + rest.bill.names == rest.bill.names; }
  }

  /**
   What an expanding call promises: success exactly when planned and covered, then the planned output and spending.
   */
  ghost predicate Settles<T>(before: Account, depth: nat, plan: Outcome<T>, r: Option<T>, after: Account) {
    && (r.Some? <==> plan.Planned? && Covers(before, depth, plan.bill))
    && (r.Some? ==> r.value == plan.out && after == Spend(before, plan.bill))
  }

  /** One more charge in front of a settled part. */
  lemma ChargedFirst<T>(before: Account, depth: nat, first: Bill, plan: Outcome<T>, r: Option<T>, after: Account)
    requires first.cost.bytes <= before.remaining
    requires Covers(before, depth, first)
    requires Settles(Spend(before, first), depth, plan, r, after)
    ensures plan.Planned? ==> Settles(before, depth, Planned(plan.out, Join(first, plan.bill)), r, after)
    ensures plan.Rejected? ==> r.None?
  {
    if r.Some? {
      assert before.used + (first.names + plan.bill.names) == before.used + first.names + plan.bill.names;
    }
  }

  /** Following a reference: the visit already counted, the name noted and pushed, then popped. */
  lemma ReferenceStep(counted: Account, depth: nat, name: string, inner: Outcome<Json>, r: Option<Json>, after: Account)
    requires 0 < counted.nodes
    requires after.stack == counted.stack
    requires Settles(counted.(used := counted.used + {name}, stack := counted.stack + [name]), depth, inner, r,
                     after.(stack := counted.stack + [name]))
    ensures Settles(counted.(nodes := counted.nodes - 1), depth,
                    if inner.Rejected? then Rejected else Planned(inner.out, ThroughRef(inner.bill, name)), r, after)
  {
    if r.Some? {
      assert counted.used + {name} + inner.bill.names == counted.used + (inner.bill.names + {name});
    }
  }

  /** A loop over members part way: `out` is finished at the price `spent`, `todo` is still planned. */
  ghost predicate Working(start: Account, depth: nat, plan: Outcome<Members>, out: Members, spent: Bill,
                          todo: Outcome<Members>, now: Account)
  {
    Covers(start, depth, spent) && now == Spend(start, spent) && plan == Glue(out, spent, todo)
  }

  ghost predicate WorkingItems(start: Account, depth: nat, plan: Outcome<Items>, out: Items, spent: Bill,
                               todo: Outcome<Items>, now: Account)
  {
    Covers(start, depth, spent) && now == Spend(start, spent) && plan == GlueItems(out, spent, todo)
  }

  lemma Begin(start: Account, depth: nat, plan: Outcome<Members>)
    requires Covers(start, depth, NOTHING)
    ensures Working(start, depth, plan, NoMembers, NOTHING, plan, start)
  {
    SpendNothing(start);
    GlueEnds(NoMembers, NOTHING, plan);
  }

  lemma BeginItems(start: Account, depth: nat, plan: Outcome<Items>)
    requires Covers(start, depth, NOTHING)
    ensures WorkingItems(start, depth, plan, NoItems, NOTHING, plan, start)
  {
    SpendNothing(start);
    GlueItemsEnds(NoItems, NOTHING, plan);
  }

  /** One entry moves from the planned rest to the finished part, or the whole loop fails with it. */
  lemma Advance(start: Account, depth: nat, plan: Outcome<Members>, out: Members, spent: Bill, name: string,
                head: Outcome<Json>, tail: Outcome<Members>, r: Option<Json>, after: Account) returns (spent': Bill)
    requires Covers(start, depth, spent)
    requires plan == Glue(out, spent, Prefix(name, head, tail))
    requires Settles(Spend(start, spent), depth, Entry(name, head), r, after)
    ensures r.None? ==> Settles(start, depth, plan, None, after)
    ensures r.Some? ==> Working(start, depth, plan, Append(out, Member(name, r.value, NoMembers)), spent', tail, after)
  {
    spent' := spent;
    if r.Some? {
      spent' := Join(spent, Join(Bytes(StringSize(name) + 2), head.bill));
      ChargedFirst(start, depth, spent, Entry(name, head), r, after);
      if tail.Planned? { AppendAssoc(out, Member(name, r.value, NoMembers), tail.out); }
    }
  }

  lemma AdvanceItem(start: Account, depth: nat, plan: Outcome<Items>, out: Items, spent: Bill,
                    head: Outcome<Json>, tail: Outcome<Items>, r: Option<Json>, after: Account) returns (spent': Bill)
    requires Covers(start, depth, spent)
    requires plan == GlueItems(out, spent, PrefixItem(head, tail))
    requires Settles(Spend(start, spent), depth, Branch(head), r, after)
    ensures r.None? ==> Settles(start, depth, plan, None, after)
    ensures r.Some? ==> WorkingItems(start, depth, plan, Concat(out, Item(r.value, NoItems)), spent', tail, after)
  {
    spent' := spent;
    if r.Some? {
      spent' := Join(spent, Join(Bytes(1), head.bill));
      ChargedFirst(start, depth, spent, Branch(head), r, after);
      if tail.Planned? { ConcatAssoc(out, Item(r.value, NoItems), tail.out); }
    }
  }

  /** One entry with its name, colon and comma. */
  function Entry(name: string, head: Outcome<Json>): Outcome<Json> {
    match head
    case Rejected => Rejected
    case Planned(out, bill) => Planned(out, Join(Bytes(StringSize(name) + 2), bill))
  }

  function Branch(head: Outcome<Json>): Outcome<Json> {
    match head
    case Rejected => Rejected
    case Planned(out, bill) => Planned(out, Join(Bytes(1), bill))
  }

  class SchemaExpander {
    const definitions: Defs
    var stack: seq<string>
    var used: set<string>
    var nodes: nat
    var remainingBytes: nat

    constructor (definitions: Defs)
      ensures this.definitions == definitions
      ensures stack == [] && used == {} && nodes == 0 && remainingBytes == MAX_BYTES
    {
      this.definitions := definitions;
      stack, used, nodes, remainingBytes := [], {}, 0, MAX_BYTES;
    }

    ghost function State(): Account
      reads this
    {
      Account(stack, used, nodes, remainingBytes)
    }

    method Charge(bytes: nat) returns (ok: bool)
      modifies this`remainingBytes
      ensures ok <==> bytes <= old(remainingBytes)
      ensures State() == if ok then Spend(old(State()), Bytes(bytes)) else old(State())
    {
      ok := bytes <= remainingBytes;
      if ok { SpendBytes(State(), bytes); remainingBytes := remainingBytes - bytes; }
    }

    /** A member name with its colon and comma. */
    method ChargeName(name: string) returns (ok: bool)
      modifies this`remainingBytes
      ensures ok <==> StringSize(name) + 2 <= old(remainingBytes)
      ensures ok ==> State() == Spend(old(State()), Bytes(StringSize(name) + 2))
    {
      ghost var start := State();
      ok := Charge(StringSize(name));
      if !ok { return; }
      ok := Charge(2);
      if ok { SpendBytes(start, StringSize(name) + 2); }
    }

    method Expand(schema: Json, depth: nat) returns (r: Option<Json>)
      requires nodes <= MAX_NODES
      modifies this
      decreases MAX_DEPTH + 1 - |stack|, schema, 0
      ensures stack == old(stack) && nodes <= MAX_NODES
      ensures Settles(old(State()), depth, Schema(definitions, old(Elements(stack)), schema), r, State())
    {
      ghost var start := State();
      if depth > MAX_DEPTH || |stack| > MAX_DEPTH || nodes == MAX_NODES { return None; }
      nodes := nodes + 1;
      if !schema.Obj? { return None; }
      var fields := schema.members;
      if Get(fields, "$ref").Some? {
        r := ExpandReference(fields, depth);
        return;
      }
      var ok := Charge(2);
      if !ok { return None; }
      assert State() == Spend(start, NODE);
      var output := ExpandKeywords(fields, depth);
      ChargedFirst(start, depth, NODE, Keywords(definitions, Elements(stack), fields), output, State());
      r := if output.Some? then Some(Obj(output.value)) else None;
    }

    /** Follows one reference; the caller has already counted the visit. */
    method ExpandReference(fields: Members, depth: nat) returns (r: Option<Json>)
      requires Get(fields, "$ref").Some?
      requires 0 < nodes <= MAX_NODES && depth <= MAX_DEPTH && |stack| <= MAX_DEPTH
      modifies this
      decreases MAX_DEPTH + 1 - |stack|, fields, 0
      ensures stack == old(stack) && nodes <= MAX_NODES
      ensures Settles(old(State()).(nodes := old(nodes) - 1), depth,
                      Schema(definitions, old(Elements(stack)), Obj(fields)), r, State())
    {
      if !fields.rest.NoMembers? { return None; }
      var name := RefName(Get(fields, "$ref").value);
      if name.None? || name.value !in definitions || name.value in stack { return None; }
      used := used + {name.value};
      stack := stack + [name.value];
      assert Elements(stack) == old(Elements(stack)) + {name.value};
      ghost var inner := Schema(definitions, Elements(stack), definitions[name.value]);
      r := Expand(definitions[name.value], depth);
      stack := stack[..|stack| - 1];
      ReferenceStep(old(State()), depth, name.value, inner, r, State());
    }

    method ExpandKeywords(fields: Members, depth: nat) returns (r: Option<Members>)
      requires nodes <= MAX_NODES && depth <= MAX_DEPTH && |stack| <= MAX_DEPTH
      modifies this
      decreases MAX_DEPTH + 1 - |stack|, fields, 1
      ensures stack == old(stack) && nodes <= MAX_NODES
      ensures Settles(old(State()), depth, Keywords(definitions, old(Elements(stack)), fields), r, State())
    {
      ghost var start, blocked := State(), Elements(stack);
      var rest, output := fields, NoMembers;
      ghost var plan, spent := Keywords(definitions, blocked, fields), NOTHING;
      ghost var todo := plan;
      Begin(start, depth, plan);
      while rest.Member?
        invariant stack == old(stack) && nodes <= MAX_NODES
        invariant rest == fields || (fields decreases to rest)
        invariant todo == Keywords(definitions, blocked, rest)
        invariant Working(start, depth, plan, output, spent, todo, State())
        decreases rest
      {
        ghost var head := Keyword(definitions, blocked, rest.name, rest.value);
        ghost var next := Keywords(definitions, blocked, rest.rest);
        assert todo == Prefix(rest.name, head, next);
        var child := ExpandEntry(rest.name, rest.value, depth);
        spent := Advance(start, depth, plan, output, spent, rest.name, head, next, child, State());
        if child.None? { return None; }
        output := Append(output, Member(rest.name, child.value, NoMembers));
        rest, todo := rest.rest, next;
      }
      GlueEnds(output, spent, Rejected);
      r := Some(output);
    }

    method ExpandEntry(name: string, value: Json, depth: nat) returns (r: Option<Json>)
      requires nodes <= MAX_NODES && depth <= MAX_DEPTH && |stack| <= MAX_DEPTH
      modifies this
      decreases MAX_DEPTH + 1 - |stack|, value, 3
      ensures stack == old(stack) && nodes <= MAX_NODES
      ensures Settles(old(State()), depth, Entry(name, Keyword(definitions, old(Elements(stack)), name, value)), r,
          State())
    {
      ghost var start := State();
      var ok := ChargeName(name);
      if !ok { return None; }
      r := ExpandKeyword(name, value, depth);
      ChargedFirst(start, depth, Bytes(StringSize(name) + 2), Keyword(definitions, Elements(stack), name, value), r,
          State());
    }

    method ExpandKeyword(name: string, value: Json, depth: nat) returns (r: Option<Json>)
      requires nodes <= MAX_NODES && depth <= MAX_DEPTH && |stack| <= MAX_DEPTH
      modifies this
      decreases MAX_DEPTH + 1 - |stack|, value, 2
      ensures stack == old(stack) && nodes <= MAX_NODES
      ensures Settles(old(State()), depth, Keyword(definitions, old(Elements(stack)), name, value), r, State())
    {
      if name == "$defs" {
        r := None;
      } else if name == "properties" {
        r := ExpandPropertyMap(value, depth);
      } else if name == "items" || (name == "additionalProperties" && value.Obj?) {
        r := Expand(value, depth + 1);
      } else if name == "oneOf" {
        r := ExpandUnion(value, depth);
      } else {
        var ok := Charge(Size(value));
        r := if ok then Some(value) else None;
      }
    }

    method ExpandPropertyMap(value: Json, depth: nat) returns (r: Option<Json>)
      requires nodes <= MAX_NODES && depth <= MAX_DEPTH && |stack| <= MAX_DEPTH
      modifies this
      decreases MAX_DEPTH + 1 - |stack|, value, 1
      ensures stack == old(stack) && nodes <= MAX_NODES
      ensures Settles(old(State()), depth, PropertyMap(definitions, old(Elements(stack)), value), r, State())
    {
      ghost var start := State();
      var ok := Charge(2);
      if !value.Obj? { return None; }
      ghost var plan := Children(definitions, Elements(stack), value.members);
      if !ok { return None; }
      var children := ExpandProperties(value.members, depth);
      ChargedFirst(start, depth, Bytes(2), plan, children, State());
      if children.None? { return None; }
      r := Some(Obj(children.value));
    }

    method ExpandUnion(value: Json, depth: nat) returns (r: Option<Json>)
      requires nodes <= MAX_NODES && depth <= MAX_DEPTH && |stack| <= MAX_DEPTH
      modifies this
      decreases MAX_DEPTH + 1 - |stack|, value, 1
      ensures stack == old(stack) && nodes <= MAX_NODES
      ensures Settles(old(State()), depth, Union(definitions, old(Elements(stack)), value), r, State())
    {
      ghost var start := State();
      var ok := Charge(2);
      if !value.Arr? { return None; }
      ghost var plan := Branches(definitions, Elements(stack), value.items);
      if !ok { return None; }
      var options := ExpandOptions(value.items, depth);
      ChargedFirst(start, depth, Bytes(2), plan, options, State());
      if options.None? { return None; }
      r := Some(Arr(options.value));
    }

    method ExpandProperties(properties: Members, depth: nat) returns (r: Option<Members>)
      requires nodes <= MAX_NODES && depth <= MAX_DEPTH && |stack| <= MAX_DEPTH
      modifies this
      decreases MAX_DEPTH + 1 - |stack|, properties, 1
      ensures stack == old(stack) && nodes <= MAX_NODES
      ensures Settles(old(State()), depth, Children(definitions, old(Elements(stack)), properties), r, State())
    {
      ghost var start, blocked := State(), Elements(stack);
      var rest, expanded := properties, NoMembers;
      ghost var plan, spent := Children(definitions, blocked, properties), NOTHING;
      ghost var todo := plan;
      Begin(start, depth, plan);
      while rest.Member?
        invariant stack == old(stack) && nodes <= MAX_NODES
        invariant rest == properties || (properties decreases to rest)
        invariant todo == Children(definitions, blocked, rest)
        invariant Working(start, depth, plan, expanded, spent, todo, State())
        decreases rest
      {
        ghost var head := Nested(Schema(definitions, blocked, rest.value));
        ghost var next := Children(definitions, blocked, rest.rest);
        assert todo == Prefix(rest.name, head, next);
        var child := ExpandProperty(rest.name, rest.value, depth);
        spent := Advance(start, depth, plan, expanded, spent, rest.name, head, next, child, State());
        if child.None? { return None; }
        expanded := Append(expanded, Member(rest.name, child.value, NoMembers));
        rest, todo := rest.rest, next;
      }
      GlueEnds(expanded, spent, Rejected);
      r := Some(expanded);
    }

    method ExpandProperty(name: string, child: Json, depth: nat) returns (r: Option<Json>)
      requires nodes <= MAX_NODES && depth <= MAX_DEPTH && |stack| <= MAX_DEPTH
      modifies this
      decreases MAX_DEPTH + 1 - |stack|, child, 1
      ensures stack == old(stack) && nodes <= MAX_NODES
      ensures Settles(old(State()), depth, Entry(name, Nested(Schema(definitions, old(Elements(stack)), child))), r,
          State())
    {
      ghost var start := State();
      var ok := ChargeName(name);
      if !ok { return None; }
      ghost var plan := Nested(Schema(definitions, Elements(stack), child));
      r := Expand(child, depth + 1);
      ChargedFirst(start, depth, Bytes(StringSize(name) + 2), plan, r, State());
    }

    method ExpandOptions(options: Items, depth: nat) returns (r: Option<Items>)
      requires nodes <= MAX_NODES && depth <= MAX_DEPTH && |stack| <= MAX_DEPTH
      modifies this
      decreases MAX_DEPTH + 1 - |stack|, options, 1
      ensures stack == old(stack) && nodes <= MAX_NODES
      ensures Settles(old(State()), depth, Branches(definitions, old(Elements(stack)), options), r, State())
    {
      ghost var start, blocked := State(), Elements(stack);
      var rest, expanded := options, NoItems;
      ghost var plan, spent := Branches(definitions, blocked, options), NOTHING;
      ghost var todo := plan;
      BeginItems(start, depth, plan);
      while rest.Item?
        invariant stack == old(stack) && nodes <= MAX_NODES
        invariant rest == options || (options decreases to rest)
        invariant todo == Branches(definitions, blocked, rest)
        invariant WorkingItems(start, depth, plan, expanded, spent, todo, State())
        decreases rest
      {
        ghost var head := Nested(Schema(definitions, blocked, rest.head));
        ghost var next := Branches(definitions, blocked, rest.tail);
        assert todo == PrefixItem(head, next);
        var child := ExpandOption(rest.head, depth);
        spent := AdvanceItem(start, depth, plan, expanded, spent, head, next, child, State());
        if child.None? { return None; }
        expanded := Concat(expanded, Item(child.value, NoItems));
        rest, todo := rest.tail, next;
      }
      GlueItemsEnds(expanded, spent, Rejected);
      r := Some(expanded);
    }

    method ExpandOption(child: Json, depth: nat) returns (r: Option<Json>)
      requires nodes <= MAX_NODES && depth <= MAX_DEPTH && |stack| <= MAX_DEPTH
      modifies this
      decreases MAX_DEPTH + 1 - |stack|, child, 1
      ensures stack == old(stack) && nodes <= MAX_NODES
      ensures Settles(old(State()), depth, Branch(Nested(Schema(definitions, old(Elements(stack)), child))), r, State())
    {
      ghost var start := State();
      var ok := Charge(1);
      if !ok { return None; }
      ghost var plan := Nested(Schema(definitions, Elements(stack), child));
      r := Expand(child, depth + 1);
      ChargedFirst(start, depth, Bytes(1), plan, r, State());
    }
  }
}
