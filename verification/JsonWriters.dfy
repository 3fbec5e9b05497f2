/** The generator's size bound and the client's byte counter measure the same text. */
module JsonWriters {
  import opened BoundedJson
  import opened Json
  import opened JsonText
  import opened Numbers
  import opened Unicode
  import opened Values

  /** A document whose numbers are integers that JavaScript holds exactly. */
  predicate Exact(j: Json) {
    match j
    case Int(n) => -9007199254740992 <= n <= 9007199254740992
    case Float(_, _) => false
    case Arr(items) => ExactItems(items)
    case Obj(m) => ExactMembers(m)
    case _ => true
  }

  predicate ExactItems(items: Items) { items.Item? ==> Exact(items.head) && ExactItems(items.tail) }

  predicate ExactMembers(m: Members) { m.Member? ==> Exact(m.value) && ExactMembers(m.rest) }

  lemma WholeHeld(n: int)
    requires -9007199254740992 <= n <= 9007199254740992
    ensures Held(n as real)
  {
  }

  /** The document as JavaScript receives it. */
  function Received(j: Json): Value
    requires Exact(j)
  {
    match j
    case Null => JsNull
    case Bool(b) => JsBool(b)
    case Int(n) => WholeHeld(n); JsNumber(n as real)
    case Str(s) => JsText(Encode(s))
    case Arr(items) => JsArray(ReceivedItems(items))
    case Obj(m) => JsObject(ReceivedMembers(m))
  }

  function ReceivedItems(items: Items): Values
    requires ExactItems(items)
  {
    match items
    case NoItems => NoValues
    case Item(head, tail) => More(Received(head), ReceivedItems(tail))
  }

  function ReceivedMembers(m: Members): Fields
    requires ExactMembers(m)
  {
    match m
    case NoMembers => NoFields
    case Member(name, v, rest) => Field(Encode(name), Received(v), ReceivedMembers(rest))
  }

  /** Integers are printed in decimal. */
  ghost predicate PrintsIntegers(format: Printer) {
    forall n | -9007199254740992 <= n <= 9007199254740992 :: format(n as real) == Compact(Int(n))
  }

  lemma EscapesAgree(c: char)
    ensures BoundedJson.Escaped(c as int) == JsonText.Escaped(c)
  {
  }

  lemma {:induction false} TextsAgree(s: string)
    ensures BoundedJson.EscapedAll(Codes(s)) == AllEscaped(s)
  {
    if s == "" {
    } else {
      var front := s[..|s| - 1];
      TextsAgree(front);
      EscapesAgree(s[|s| - 1]);
      assert Codes(s) == Codes(front) + [s[|s| - 1] as int];
      OneMore(Codes(front), s[|s| - 1] as int);
    }
  }

  lemma {:induction false} OneMore(ps: seq<Scalar>, p: Scalar)
    ensures BoundedJson.EscapedAll(ps + [p]) == BoundedJson.EscapedAll(ps) + BoundedJson.Escaped(p)
  {
    if ps == [] {
      assert ps + [p] == [p] && [p][1..] == [];
    } else {
      OneMore(ps[1..], p);
      assert (ps + [p])[1..] == ps[1..] + [p];
    }
  }

  lemma QuotesAgree(s: string)
    ensures BoundedJson.Quoted(Encode(s)) == JsonText.Quoted(s)
  {
    EncodeDecodes(s);
    TextsAgree(s);
  }

  /** Both writers write the same bytes. */
  lemma {:induction false} WritersAgree(j: Json, format: Printer)
    requires Exact(j) && PrintsIntegers(format)
    ensures Wire(Received(j), format) == Compact(j)
  {
    match j
    case Null => WordsAgree();
    case Bool(_) => WordsAgree();
    case Str(s) => QuotesAgree(s);
    case Arr(items) =>
      ItemsAgree(items, format);
      assert Chars("[") == [0x5b] && Chars("]") == [0x5d];
    case Obj(m) =>
      MembersAgree(m, format);
      assert Chars("{") == [0x7b] && Chars("}") == [0x7d];
    case _ =>
  }

  lemma WordsAgree()
    ensures [0x6e, 0x75, 0x6c, 0x6c] == Chars("null")
    ensures [0x74, 0x72, 0x75, 0x65] == Chars("true") && [0x66, 0x61, 0x6c, 0x73, 0x65] == Chars("false")
  {
  }

  /** A hole is written like the value null. */
  lemma HolesSpelled(rest: Values, format: Printer)
    ensures Elements(Hole(rest), format) == Elements(More(JsNull, rest), format)
  {
    WordsAgree();
  }

  lemma {:induction false} ItemsAgree(items: Items, format: Printer)
    requires ExactItems(items) && PrintsIntegers(format)
    ensures Elements(ReceivedItems(items), format) == CompactItems(items)
  {
    match items
    case NoItems =>
    case Item(head, tail) =>
      WritersAgree(head, format);
      ItemsAgree(tail, format);
      assert Chars(",") == [0x2c];
  }

  lemma {:induction false} MembersAgree(m: Members, format: Printer)
    requires ExactMembers(m) && PrintsIntegers(format)
    ensures Entries(ReceivedMembers(m), format) == CompactMembers(m)
  {
    match m
    case NoMembers =>
    case Member(name, v, rest) =>
      QuotesAgree(name);
      WritersAgree(v, format);
      MembersAgree(rest, format);
      assert Chars(":") == [0x3a] && Chars(",") == [0x2c];
  }

  /** So both bounds count the same bytes: what the client's counter charges is what the generator's bound measures. */
  lemma BothCountAlike(j: Json, format: Printer)
    requires Exact(j) && PrintsIntegers(format)
    ensures Charge(Received(j), format) == Size(j)
  {
    WritersAgree(j, format);
    SizeIsLength(j);
    ChargeIsSize(Received(j), format);
    NoHoles(j);
  }

  lemma {:induction false} NoHoles(j: Json)
    requires Exact(j)
    ensures Holes(Received(j)) == 0
  {
    match j
    case Arr(items) => NoHolesIn(items);
    case Obj(m) => NoHolesUnder(m);
    case _ =>
  }

  lemma {:induction false} NoHolesIn(items: Items)
    requires ExactItems(items)
    ensures HolesIn(ReceivedItems(items)) == 0
  {
    match items
    case NoItems =>
    case Item(head, tail) =>
      NoHoles(head);
      NoHolesIn(tail);
  }

  lemma {:induction false} NoHolesUnder(m: Members)
    requires ExactMembers(m)
    ensures HolesUnder(ReceivedMembers(m)) == 0
  {
    match m
    case NoMembers =>
    case Member(_, v, rest) =>
      NoHoles(v);
      NoHolesUnder(rest);
  }
}
