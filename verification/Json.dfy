/** JSON documents as the generator holds them: serde values, read by member name. */
module Json {
  import opened Numbers
  import opened Options

  datatype Json =
    | Null
    | Bool(b: bool)
    | Int(n: int)
    | Float(value: Number, literal: string)
    | Str(text: string)
    | Arr(items: Items)
    | Obj(members: Members)

  datatype Items = NoItems | Item(head: Json, tail: Items)

  datatype Members = NoMembers | Member(name: string, value: Json, rest: Members)

  type Defs = map<string, Json>

  function Get(m: Members, name: string): (r: Option<Json>)
    ensures r.Some? ==> (m decreases to r.value)
  {
    match m
    case NoMembers => None
    case Member(n, v, rest) => if n == name then Some(v) else Get(rest, name)
  }

  function Append(a: Members, b: Members): Members {
    match a
    case NoMembers => b
    case Member(n, v, rest) => Member(n, v, Append(rest, b))
  }

  function Concat(a: Items, b: Items): Items {
    match a
    case NoItems => b
    case Item(head, tail) => Item(head, Concat(tail, b))
  }

  lemma AppendAssoc(a: Members, b: Members, c: Members)
    ensures Append(Append(a, b), c) == Append(a, Append(b, c))
  {}

  lemma AppendNothing(a: Members)
    ensures Append(a, NoMembers) == a
  {}

  lemma ConcatNothing(a: Items)
    ensures Concat(a, NoItems) == a
  {}

  lemma ConcatAssoc(a: Items, b: Items, c: Items)
    ensures Concat(Concat(a, b), c) == Concat(a, Concat(b, c))
  {}

  // ----- compact JSON size in bytes, as bounded_json_size measures it -----

  function Digits(n: nat): nat {
    if n < 10 then 1 else 1 + Digits(n / 10)
  }

  /** Bytes of one character inside a JSON string: escapes of RFC 8259 section 7, else UTF-8. */
  function CharSize(c: char): nat {
    var u := c as int;
    if u == 0x22 || u == 0x5c then 2
    else if u < 0x20 then (if u in {8, 9, 10, 12, 13} then 2 else 6)
    else if u < 0x80 then 1
    else if u < 0x800 then 2
    else if u < 0x10000 then 3
    else 4
  }

  function CharsSize(s: string, n: nat): nat
    requires n <= |s|
  {
    if n == 0 then 0 else CharsSize(s, n - 1) + CharSize(s[n - 1])
  }

  function StringSize(s: string): nat {
    2 + CharsSize(s, |s|)
  }

  function Size(j: Json): nat {
    match j
    case Null => 4
    case Bool(b) => if b then 4 else 5
    case Int(n) => if n < 0 then 1 + Digits(-n) else Digits(n)
    case Float(_, literal) => |literal|
    case Str(s) => StringSize(s)
    case Arr(items) => 2 + ItemsSize(items)
    case Obj(members) => 2 + MembersSize(members)
  }

  /** Array elements with the commas between them. */
  function ItemsSize(items: Items): nat {
    match items
    case NoItems => 0
    case Item(head, tail) => Size(head) + (if tail.NoItems? then 0 else 1) + ItemsSize(tail)
  }

  /** Members with their colons and the commas between them. */
  function MembersSize(m: Members): nat {
    match m
    case NoMembers => 0
    case Member(n, v, rest) =>
      StringSize(n) + 1 + Size(v) + (if rest.NoMembers? then 0 else 1) + MembersSize(rest)
  }

  // ----- local references -----

  predicate IsAsciiAlpha(c: char) {
    'a' <= c <= 'z' || 'A' <= c <= 'Z'
  }

  predicate ValidIdentifier(name: string) {
    && 0 < |name| <= 160
    && IsAsciiAlpha(name[0])
    && forall i :: 0 <= i < |name| ==> IsAsciiAlpha(name[i]) || '0' <= name[i] <= '9' || name[i] == '_'
  }

  const DEFS_PREFIX := "#/$defs/"

  /** The text after `#/$defs/`, whether or not it is an identifier. */
  function LocalTarget(reference: Json): Option<string> {
    if reference.Str? && DEFS_PREFIX <= reference.text then Some(reference.text[|DEFS_PREFIX|..]) else None
  }

  /** The definition a `$ref` value names; only exact `#/$defs/Name` references do. */
  function RefName(reference: Json): Option<string> {
    match LocalTarget(reference)
    case Some(name) => if ValidIdentifier(name) then Some(name) else None
    case None => None
  }
}
