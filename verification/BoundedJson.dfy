/**
 The byte counter at the wire boundary: a shared counter and scattered early exits, against the bytes of the compact
 JSON text (strings per section 7 of RFC 8259 and section 3 of RFC 3629). Number formatting is a parameter.
 */
module BoundedJson {
  import opened Unicode
  import opened Values
  import opened TextChecks

  const MAX_STRING_BYTES := 1_048_576
  const MAX_NESTING := 144
  const MAX_CONTAINER := 1_000_000

  // ----- the compact JSON text, byte by byte -----

  function HexDigit(n: nat): nat { if n < 10 then 0x30 + n else 0x57 + n }

  function Escaped(p: Scalar): seq<nat> {
    if p == 0x22 || p == 0x5c then [0x5c, p]
    else if p == 8 then [0x5c, 0x62]
    else if p == 9 then [0x5c, 0x74]
    else if p == 10 then [0x5c, 0x6e]
    else if p == 12 then [0x5c, 0x66]
    else if p == 13 then [0x5c, 0x72]
    else if p < 0x20 then [0x5c, 0x75, 0x30, 0x30, HexDigit(p / 16), HexDigit(p % 16)]
    else Utf8(p)
  }

  function EscapedAll(ps: seq<Scalar>): seq<nat> {
    if ps == [] then [] else Escaped(ps[0]) + EscapedAll(ps[1..])
  }

  function Quoted(t: Text): seq<nat> {
    [0x22] + (if WellFormed(t) then EscapedAll(Points(t).value) else []) + [0x22]
  }

  type Printer = real -> seq<nat>

  function Wire(v: Value, format: Printer): seq<nat> {
    match v
    case JsNull => [0x6e, 0x75, 0x6c, 0x6c]
    case JsBool(b) => if b then [0x74, 0x72, 0x75, 0x65] else [0x66, 0x61, 0x6c, 0x73, 0x65]
    case JsNumber(n) => format(n)
    case JsText(t) => Quoted(t)
    case JsArray(items) => [0x5b] + Elements(items, format) + [0x5d]
    case JsObject(fields) => [0x7b] + Entries(fields, format) + [0x7d]
    case _ => []
  }

  /** A hole is written as `null`. */
  function Elements(items: Values, format: Printer): seq<nat> {
    match items
    case NoValues => []
    case More(v, tail) => Wire(v, format) + Following(tail.NoValues?, Elements(tail, format))
    case Hole(tail) => [0x6e, 0x75, 0x6c, 0x6c] + Following(tail.NoValues?, Elements(tail, format))
  }

  function Following(last: bool, rest: seq<nat>): seq<nat> { if last then [] else [0x2c] + rest }

  function Entries(fields: Fields, format: Printer): seq<nat> {
    match fields
    case NoFields => []
    case Field(key, v, rest) =>
      Quoted(key) + [0x3a] + Wire(v, format) + Following(rest.NoFields?, Entries(rest, format))
  }

  // ----- what is allowed at all -----

  predicate TextFits(t: Text) { WellFormed(t) && Utf8Size(t) <= MAX_STRING_BYTES }

  predicate Fits(v: Value, depth: nat) {
    && depth <= MAX_NESTING
    && match v
       case JsText(t) => TextFits(t)
       case JsArray(items) => Length(items) <= MAX_CONTAINER && ItemsFit(items, depth + 1)
       case JsObject(fields) => Width(fields) <= MAX_CONTAINER && FieldsFit(fields, depth + 1)
       case JsNonFinite => false
       case JsForeign => false
       case _ => true
  }

  predicate ItemsFit(items: Values, depth: nat) {
    match items
    case NoValues => true
    case More(v, tail) => Fits(v, depth) && ItemsFit(tail, depth)
    case Hole(tail) => ItemsFit(tail, depth)
  }

  predicate FieldsFit(fields: Fields, depth: nat) {
    fields.NoFields? || (TextFits(fields.key) && Fits(fields.value, depth) && FieldsFit(fields.rest, depth))
  }

  /** The limits: a mebibyte of UTF-8 per string, a million entries per container, 144 levels below the root. */
  lemma LimitsSpelled(v: Value, depth: nat)
    ensures Fits(v, depth) ==> depth <= 144
    ensures v.JsText? ==> (Fits(v, depth) <==> depth <= 144 && WellFormed(v.text) && Utf8Size(v.text) <= 1048576)
    ensures v.JsArray? ==>
              (Fits(v, depth) <==> depth <= 144 && Length(v.items) <= 1000000 && ItemsFit(v.items, depth + 1))
    ensures v.JsObject? ==>
              (Fits(v, depth) <==> depth <= 144 && Width(v.fields) <= 1000000 && FieldsFit(v.fields, depth + 1))
    ensures v.JsNull? || v.JsBool? || v.JsNumber? ==> (Fits(v, depth) <==> depth <= 144)
    ensures v.JsNonFinite? || v.JsForeign? ==> !Fits(v, depth)
  {
  }

  // ----- separators are charged up front, elements one by one, holes not at all -----

  function Holes(v: Value): nat {
    match v
    case JsArray(items) => HolesIn(items)
    case JsObject(fields) => HolesUnder(fields)
    case _ => 0
  }

  function HolesIn(items: Values): nat {
    match items
    case NoValues => 0
    case More(v, tail) => Holes(v) + HolesIn(tail)
    case Hole(tail) => 1 + HolesIn(tail)
  }

  function HolesUnder(fields: Fields): nat {
    if fields.NoFields? then 0 else Holes(fields.value) + HolesUnder(fields.rest)
  }

  /** What the counter charges for a value. */
  function Charge(v: Value, format: Printer): nat {
    match v
    case JsArray(items) => 2 + Separators(Length(items)) + ItemsCharge(items, format)
    case JsObject(fields) => 2 + Separators(Width(fields)) + Width(fields) + FieldsCharge(fields, format)
    case _ => |Wire(v, format)|
  }

  function ItemsCharge(items: Values, format: Printer): nat {
    match items
    case NoValues => 0
    case More(v, tail) => Charge(v, format) + ItemsCharge(tail, format)
    case Hole(tail) => ItemsCharge(tail, format)
  }

  function FieldsCharge(fields: Fields, format: Printer): nat {
    if fields.NoFields? then 0
    else |Quoted(fields.key)| + Charge(fields.value, format) + FieldsCharge(fields.rest, format)
  }

  function Separators(n: nat): nat { if n == 0 then 0 else n - 1 }

  /** The charge falls short of the bytes by four for each hole. */
  lemma {:induction false} ChargeIsSize(v: Value, format: Printer)
    ensures |Wire(v, format)| == Charge(v, format) + 4 * Holes(v)
  {
    match v
    case JsArray(items) => ElementsSize(items, format);
    case JsObject(fields) => EntriesSize(fields, format);
    case _ =>
  }

  lemma {:induction false} ElementsSize(items: Values, format: Printer)
    ensures |Elements(items, format)| == Separators(Length(items)) + ItemsCharge(items, format) + 4 * HolesIn(items)
  {
    match items
    case NoValues =>
    case More(v, tail) =>
      ChargeIsSize(v, format);
      ElementsSize(tail, format);
    case Hole(tail) => ElementsSize(tail, format);
  }

  lemma {:induction false} EntriesSize(fields: Fields, format: Printer)
    ensures |Entries(fields, format)| ==
            Separators(Width(fields)) + Width(fields) + FieldsCharge(fields, format) + 4 * HolesUnder(fields)
  {
    match fields
    case NoFields =>
    case Field(key, v, rest) =>
      ChargeIsSize(v, format);
      EntriesSize(rest, format);
  }

  // ----- what is charged after the last look at the counter -----

  predicate Visits(items: Values) { items.More? || (items.Hole? && Visits(items.tail)) }

  /** A container is charged before its elements are visited, and nothing looks at the counter when there are none. */
  function Slack(v: Value): nat {
    match v
    case JsArray(items) => if Visits(items) then ItemsSlack(items) else 2 + Separators(Length(items))
    case JsObject(fields) => if fields.Field? then FieldsSlack(fields) else 2
    case _ => 0
  }

  function ItemsSlack(items: Values): nat {
    match items
    case NoValues => 0
    case More(v, tail) => if Visits(tail) then ItemsSlack(tail) else Slack(v)
    case Hole(tail) => ItemsSlack(tail)
  }

  function FieldsSlack(fields: Fields): nat {
    match fields
    case NoFields => 0
    case Field(_, v, rest) => if rest.Field? then FieldsSlack(rest) else Slack(v)
  }

  lemma {:induction false} SlackCharged(v: Value, format: Printer)
    ensures Slack(v) <= Charge(v, format)
  {
    match v
    case JsArray(items) => ItemsSlackCharged(items, format);
    case JsObject(fields) => FieldsSlackCharged(fields, format);
    case _ =>
  }

  lemma {:induction false} ItemsSlackCharged(items: Values, format: Printer)
    ensures ItemsSlack(items) <= ItemsCharge(items, format)
  {
    match items
    case NoValues =>
    case More(v, tail) =>
      SlackCharged(v, format);
      ItemsSlackCharged(tail, format);
    case Hole(tail) => ItemsSlackCharged(tail, format);
  }

  lemma {:induction false} FieldsSlackCharged(fields: Fields, format: Printer)
    ensures FieldsSlack(fields) <= FieldsCharge(fields, format)
  {
    match fields
    case NoFields =>
    case Field(_, v, rest) =>
      SlackCharged(v, format);
      FieldsSlackCharged(rest, format);
  }

  function EscapedSize(t: Text): nat { if WellFormed(t) then |EscapedAll(Points(t).value)| else 0 }

  lemma EscapedSplits(t: Text)
    requires t != [] && Front(t) > 0 && WellFormed(t)
    ensures Front(t) <= |t| && WellFormed(t[Front(t)..])
    ensures EscapedSize(t) == |Escaped(First(t))| + EscapedSize(t[Front(t)..])
  {
    FrontSplits(t);
    var rest := Points(t[Front(t)..]).value;
    assert ([First(t)] + rest)[1..] == rest;
  }

  /** When a visit succeeds with that much left. */
  predicate Passable(v: Value, depth: nat, remaining: int, format: Printer) {
    Fits(v, depth) && Charge(v, format) - Slack(v) <= remaining
  }

  /** When a whole value is accepted. */
  predicate Admitted(v: Value, maximum: int, format: Printer) {
    Fits(v, 0) && |Wire(v, format)| <= maximum + 4 * Holes(v)
  }

  // ----- the counter -----

  class Budget {
    var remaining: int

    constructor (maximum: int)
      ensures remaining == maximum
    {
      remaining := maximum;
    }

    /** Charges a string, or refuses one that is ill formed, too long or over budget. */
    method ChargeText(t: Text) returns (ok: bool)
      modifies this
      ensures ok <==> TextFits(t) && |Quoted(t)| <= old(remaining)
      ensures ok ==> remaining == old(remaining) - |Quoted(t)|
    {
      var bytes, wire, index := 0, 2, 0;
      while index < |t|
        invariant index <= |t| && bytes <= MAX_STRING_BYTES
        invariant index > 0 ==> wire <= remaining
        invariant remaining == old(remaining)
        invariant WellFormed(t) <==> WellFormed(t[index..])
        invariant WellFormed(t) ==> Utf8Size(t) == bytes + Utf8Size(t[index..])
        invariant WellFormed(t) ==> 2 + EscapedSize(t) == wire + EscapedSize(t[index..])
      {
        ghost var rest := t[index..];
        FrontSplits(rest);
        if WellFormed(rest) { SizeSplits(rest); EscapedSplits(rest); }
        ghost var next := index + Front(rest);
        assert Front(rest) > 0 ==> t[next..] == rest[Front(rest)..];
        var code := t[index];
        if 0xd800 <= code <= 0xdbff {
          if !Between(UnitAt(t, index + 1), 0xdc00, 0xdfff) { return false; }
          bytes, wire, index := bytes + 4, wire + 4, index + 1;
        } else if 0xdc00 <= code <= 0xdfff {
          return false;
        } else {
          var width := if code < 0x80 then 1 else if code < 0x800 then 2 else 3;
          bytes := bytes + width;
          wire := wire + if code == 0x22 || code == 0x5c then 2
                         else if code < 0x20 then if code in [8, 9, 10, 12, 13] then 2 else 6
                         else width;
        }
        index := index + 1;
        assert index == next;
        if bytes > MAX_STRING_BYTES || wire > remaining { return false; }
      }
      assert t[index..] == [];
      remaining := remaining - wire;
      return remaining >= 0;
    }

    /**
     Succeeds exactly when the value fits and the counter covers all but the slack, and then charges the whole: a value
     that ends in an empty container may leave the counter overdrawn.
     */
    method Visit(v: Value, depth: nat, format: Printer) returns (ok: bool)
      modifies this
      ensures ok <==> Passable(v, depth, old(remaining), format)
      ensures ok ==> remaining == old(remaining) - Charge(v, format)
      decreases v
    {
      SlackCharged(v, format);
      if depth > MAX_NESTING || remaining < 0 { return false; }
      match v {
        case JsText(t) => ok := ChargeText(t); return;
        case JsNull => remaining := remaining - 4;
        case JsBool(b) => remaining := remaining - if b then 4 else 5;
        case JsNumber(n) => remaining := remaining - |format(n)|;
        case JsArray(items) =>
          if Length(items) > MAX_CONTAINER { return false; }
          Unvisited(items, depth + 1, format);
          remaining := remaining - (2 + Separators(Length(items)));
          ok := EveryItem(items, depth + 1, format);
          return;
        case JsObject(fields) =>
          if Width(fields) > MAX_CONTAINER { return false; }
          remaining := remaining - (2 + Separators(Width(fields)) + Width(fields));
          ok := EveryField(fields, depth + 1, format);
          return;
        case JsNonFinite => return false;
        case JsForeign => return false;
      }
      return remaining >= 0;
    }

    /** `every` passes over holes. */
    method EveryItem(items: Values, depth: nat, format: Printer) returns (ok: bool)
      modifies this
      ensures ok <==> ItemsFit(items, depth)
                      && (Visits(items) ==> ItemsCharge(items, format) - ItemsSlack(items) <= old(remaining))
      ensures ok ==> remaining == old(remaining) - ItemsCharge(items, format)
      decreases items
    {
      match items
      case NoValues => ok := true;
      case More(v, tail) =>
        SlackCharged(v, format);
        ItemsSlackCharged(tail, format);
        Unvisited(tail, depth, format);
        ok := Visit(v, depth, format);
        if ok { ok := EveryItem(tail, depth, format); }
      case Hole(tail) => ok := EveryItem(tail, depth, format);
    }

    method EveryField(fields: Fields, depth: nat, format: Printer) returns (ok: bool)
      modifies this
      ensures ok <==> FieldsFit(fields, depth)
                      && (fields.Field? ==> FieldsCharge(fields, format) - FieldsSlack(fields) <= old(remaining))
      ensures ok ==> remaining == old(remaining) - FieldsCharge(fields, format)
      decreases fields
    {
      match fields
      case NoFields => ok := true;
      case Field(key, v, rest) =>
        SlackCharged(v, format);
        FieldsSlackCharged(rest, format);
        ok := ChargeText(key);
        if ok { ok := Visit(v, depth, format); }
        if ok { ok := EveryField(rest, depth, format); }
    }
  }

  lemma {:induction false} Unvisited(items: Values, depth: nat, format: Printer)
    ensures !Visits(items) ==> ItemsFit(items, depth) && ItemsCharge(items, format) == 0
  {
    match items
    case Hole(tail) => Unvisited(tail, depth, format);
    case _ =>
  }

  /** Accepts exactly the values within the structural limits whose bytes, holes left out, are at most `maximum`. */
  method Accepts(v: Value, maximum: int, format: Printer) returns (ok: bool)
    ensures ok <==> Admitted(v, maximum, format)
  {
    var budget := new Budget(maximum);
    ChargeIsSize(v, format);
    ok := budget.Visit(v, 0, format);
    ok := ok && budget.remaining >= 0;
  }

  // ----- where the limit is not the number of bytes -----

  /** For a value within the structural limits the verdict is the byte limit if and only if the value has no holes. */
  lemma HolesUndercount(v: Value, format: Printer)
    requires Fits(v, 0)
    ensures Holes(v) == 0 <==> forall maximum: int :: Admitted(v, maximum, format) <==> |Wire(v, format)| <= maximum
  {
    if Holes(v) > 0 { assert Admitted(v, |Wire(v, format)| - 1, format); }
  }

  /** Visiting a value never overdraws the counter if and only if the value has no slack. */
  lemma SlackOverdraws(v: Value, depth: nat, format: Printer)
    requires Fits(v, depth)
    ensures Slack(v) == 0 <==>
      forall remaining: int :: Passable(v, depth, remaining, format) ==> Charge(v, format) <= remaining
  {
    if Slack(v) > 0 { assert Passable(v, depth, Charge(v, format) - Slack(v), format); }
  }

  /** `[]` is visited with success when nothing is left, and leaves the counter two short. */
  lemma EmptyArrayOverdraws(format: Printer)
    ensures Passable(JsArray(NoValues), 0, 0, format) && Charge(JsArray(NoValues), format) == 2
  {
  }

  /** `[,]` is written in six bytes and accepted within two. */
  lemma SparseArrayUndercounts(format: Printer)
    ensures Admitted(JsArray(Hole(NoValues)), 2, format) && |Wire(JsArray(Hole(NoValues)), format)| == 6
  {
    ChargeIsSize(JsArray(Hole(NoValues)), format);
    assert Holes(JsArray(Hole(NoValues))) == 1 && Charge(JsArray(Hole(NoValues)), format) == 2;
  }
}
