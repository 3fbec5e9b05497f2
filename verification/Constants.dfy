/** Constants of a schema: when JavaScript's `===` compares with one as JSON equality does. */
module Constants {
  import opened Json
  import opened Numbers
  import opened SchemaMeaning
  import opened Unicode
  import opened Values

  predicate IsScalar(c: Json) { !c.Arr? && !c.Obj? }

  /** Every integer in the constant is one that JavaScript can hold. */
  predicate AllHeld(c: Json) {
    match c
    case Int(n) => Nearest(n) == n
    case Arr(items) => ItemsHeld(items)
    case Obj(m) => MembersHeld(m)
    case _ => true
  }

  predicate ItemsHeld(items: Items) { items.Item? ==> AllHeld(items.head) && ItemsHeld(items.tail) }

  predicate MembersHeld(m: Members) { m.Member? ==> AllHeld(m.value) && MembersHeld(m.rest) }

  /** A scalar that is held as written, or a container that no value equals anyway. */
  predicate Comparable(c: Json) { IsScalar(c) <==> AllHeld(c) }

  /** No value equals a constant that JavaScript cannot hold. */
  lemma {:induction false} EqualsHeld(c: Json, v: Value)
    requires SameJson(c, v)
    ensures AllHeld(c)
  {
    match c
    case Int(n) => assert (n as real).Floor == n;
    case Arr(items) => EqualItemsHeld(items, v.items);
    case Obj(m) => EqualMembersHeld(m, v.fields);
    case _ =>
  }

  lemma {:induction false} EqualItemsHeld(items: Items, vs: Values)
    requires SameItems(items, vs)
    ensures ItemsHeld(items)
  {
    match items
    case NoItems =>
    case Item(head, tail) =>
      EqualsHeld(head, vs.head);
      EqualItemsHeld(tail, vs.tail);
  }

  lemma {:induction false} EqualMembersHeld(m: Members, fields: Fields)
    requires SameMembers(m, fields)
    ensures MembersHeld(m)
  {
    match m
    case NoMembers =>
    case Member(n, v, rest) =>
      EqualsHeld(v, Own(fields, Encode(n)).value);
      EqualMembersHeld(rest, Without(fields, Encode(n)));
  }

  lemma ComparesEqual(c: Json, v: Value)
    requires Comparable(c)
    ensures Identical(c, v) == SameJson(c, v)
  {
    if SameJson(c, v) { EqualsHeld(c, v); }
  }

  /** Every constant in a schema position is comparable. */
  predicate ComparableConsts(s: Json) {
    s.Obj? && Get(s.members, "$ref").None? ==> ComparableNode(s.members)
  }

  predicate ComparableNode(o: Members)
    decreases o, 1
  {
    && (Get(o, "const").Some? ==> Comparable(Get(o, "const").value))
    && (Get(o, "oneOf").Some? && Get(o, "oneOf").value.Arr? ==> ComparableOptions(Get(o, "oneOf").value.items))
    && (Get(o, "items").Some? ==> ComparableConsts(Get(o, "items").value))
    && (Get(o, "additionalProperties").Some? ==> ComparableConsts(Get(o, "additionalProperties").value))
    && (PropertiesOf(o).Member? ==> ComparableChildren(PropertiesOf(o)))
  }

  predicate ComparableOptions(options: Items) {
    options.Item? ==> ComparableConsts(options.head) && ComparableOptions(options.tail)
  }

  predicate ComparableChildren(m: Members) {
    m.Member? ==> ComparableConsts(m.value) && ComparableChildren(m.rest)
  }

  lemma {:induction false} ComparableChild(m: Members, name: string)
    requires ComparableChildren(m) && Get(m, name).Some?
    ensures ComparableConsts(Get(m, name).value)
  {
    if m.name == name {
    } else {
      ComparableChild(m.rest, name);
    }
  }
}
