/**
 What inlining `#/$defs/Name` references should produce and what it costs, free of any state
 and of any limit: `Schema` unfolds a schema and writes the bill an expander has to be able to pay.
 */
module Expansion {
  import opened Options
  import opened Json

  datatype Cost = Cost(calls: nat, bytes: nat)

  datatype Span = Span(height: nat, refs: nat)

  /** What one expansion needs: visits and bytes charged, schema and reference nesting, names used. */
  datatype Bill = Bill(cost: Cost, span: Span, names: set<string>)

  function Max(a: nat, b: nat): nat { if a < b then b else a }

  function Priced(calls: nat, bytes: nat): Bill { Bill(Cost(calls, bytes), Span(0, 0), {}) }

  function Bytes(n: nat): Bill { Priced(0, n) }

  const NOTHING := Bytes(0)
  const NODE := Priced(1, 2)

  function Join(a: Bill, b: Bill): Bill {
    Bill(Cost(a.cost.calls + b.cost.calls, a.cost.bytes + b.cost.bytes),
         Span(Max(a.span.height, b.span.height), Max(a.span.refs, b.span.refs)),
         a.names + b.names)
  }

  function Deeper(b: Bill): Bill { b.(span := Span(b.span.height + 1, b.span.refs)) }

  function ThroughRef(b: Bill, name: string): Bill {
    Bill(Cost(b.cost.calls + 1, b.cost.bytes), Span(b.span.height, b.span.refs + 1), b.names + {name})
  }

  datatype Outcome<+T> = Rejected | Planned(out: T, bill: Bill)

  /** The reference a schema object consists of, when it is exactly one resolvable reference. */
  function Target(defs: Defs, m: Members): (name: Option<string>)
    ensures name.Some? ==> name.value in defs
  {
    match Get(m, "$ref")
    case None => None
    case Some(reference) =>
      if m.rest.NoMembers? && RefName(reference).Some? && RefName(reference).value in defs
      then RefName(reference) else None
  }

  function Schema(defs: Defs, blocked: set<string>, s: Json): Outcome<Json>
    decreases defs.Keys - blocked, s, 0
  {
    if !s.Obj? then Rejected
    else if Get(s.members, "$ref").Some? then
      match Target(defs, s.members)
      case None => Rejected
      case Some(name) =>
        if name in blocked then Rejected
        else match Schema(defs, blocked + {name}, defs[name])
          case Rejected => Rejected
          case Planned(out, bill) => Planned(out, ThroughRef(bill, name))
    else match Keywords(defs, blocked, s.members)
      case Rejected => Rejected
      case Planned(m, bill) => Planned(Obj(m), Join(NODE, bill))
  }

  function Keywords(defs: Defs, blocked: set<string>, m: Members): Outcome<Members>
    decreases defs.Keys - blocked, m, 0
  {
    match m
    case NoMembers => Planned(NoMembers, NOTHING)
    case Member(name, value, rest) => Prefix(name, Keyword(defs, blocked, name, value), Keywords(defs, blocked, rest))
  }

  function Prefix(name: string, head: Outcome<Json>, tail: Outcome<Members>): Outcome<Members> {
    if head.Rejected? || tail.Rejected? then Rejected
    else Planned(Member(name, head.out, tail.out), Join(Join(Bytes(StringSize(name) + 2), head.bill), tail.bill))
  }

  function Nested(o: Outcome<Json>): Outcome<Json> {
    match o
    case Rejected => Rejected
    case Planned(out, bill) => Planned(out, Deeper(bill))
  }

  function Keyword(defs: Defs, blocked: set<string>, name: string, value: Json): Outcome<Json>
    decreases defs.Keys - blocked, value, 2
  {
    if name == "$defs" then Rejected
    else if name == "properties" then PropertyMap(defs, blocked, value)
    else if name == "items" || (name == "additionalProperties" && value.Obj?) then
      Nested(Schema(defs, blocked, value))
    else if name == "oneOf" then Union(defs, blocked, value)
    else Planned(value, Bytes(Size(value)))
  }

  function PropertyMap(defs: Defs, blocked: set<string>, value: Json): Outcome<Json>
    decreases defs.Keys - blocked, value, 1
  {
    if !value.Obj? then Rejected
    else match Children(defs, blocked, value.members)
      case Rejected => Rejected
      case Planned(m, bill) => Planned(Obj(m), Join(Bytes(2), bill))
  }

  function Union(defs: Defs, blocked: set<string>, value: Json): Outcome<Json>
    decreases defs.Keys - blocked, value, 1
  {
    if !value.Arr? then Rejected
    else match Branches(defs, blocked, value.items)
      case Rejected => Rejected
      case Planned(items, bill) => Planned(Arr(items), Join(Bytes(2), bill))
  }

  function Children(defs: Defs, blocked: set<string>, m: Members): Outcome<Members>
    decreases defs.Keys - blocked, m, 0
  {
    match m
    case NoMembers => Planned(NoMembers, NOTHING)
    case Member(name, child, rest) => Prefix(name, Nested(Schema(defs, blocked, child)), Children(defs, blocked, rest))
  }

  function Branches(defs: Defs, blocked: set<string>, items: Items): Outcome<Items>
    decreases defs.Keys - blocked, items, 0
  {
    match items
    case NoItems => Planned(NoItems, NOTHING)
    case Item(head, tail) => PrefixItem(Nested(Schema(defs, blocked, head)), Branches(defs, blocked, tail))
  }

  function PrefixItem(head: Outcome<Json>, tail: Outcome<Items>): Outcome<Items> {
    if head.Rejected? || tail.Rejected? then Rejected
    else Planned(Item(head.out, tail.out), Join(Join(Bytes(1), head.bill), tail.bill))
  }
}
