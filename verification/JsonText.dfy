/** The compact JSON text of a document; its length is what the size bound counts. */
module JsonText {
  import opened Json
  import opened Unicode

  type Octets = seq<nat>

  function Chars(s: string): (r: Octets)
    ensures |r| == |s|
  {
    seq(|s|, i requires 0 <= i < |s| => s[i] as int)
  }

  // ----- scalars -----

  function Decimal(n: nat): Octets { if n < 10 then ['0' as int + n] else Decimal(n / 10) + ['0' as int + n % 10] }

  function HexDigit(n: nat): nat
    requires n < 16
  {
    "0123456789abcdef"[n] as int
  }

  /** One character of a string: a short escape where there is one, a long one for other controls, else UTF-8. */
  function Escaped(c: char): Octets {
    if c == '\"' then Chars("\\\"")
    else if c == '\\' then Chars("\\\\")
    else if c == '\n' then Chars("\\n")
    else if c == '\r' then Chars("\\r")
    else if c == '\t' then Chars("\\t")
    else if c as int == 8 then Chars("\\b")
    else if c as int == 12 then Chars("\\f")
    else if c < ' ' then Chars("\\u00") + [HexDigit(c as int / 16), HexDigit(c as int % 16)]
    else Utf8(c as int)
  }

  function AllEscaped(s: string): Octets {
    if s == "" then [] else AllEscaped(s[..|s| - 1]) + Escaped(s[|s| - 1])
  }

  function Quoted(s: string): Octets { ['\"' as int] + AllEscaped(s) + ['\"' as int] }

  // ----- documents -----

  function Compact(j: Json): Octets {
    match j
    case Null => Chars("null")
    case Bool(b) => Chars(if b then "true" else "false")
    case Int(n) => if n < 0 then Chars("-") + Decimal(-n) else Decimal(n)
    case Float(_, literal) => Chars(literal)
    case Str(s) => Quoted(s)
    case Arr(items) => Chars("[") + CompactItems(items) + Chars("]")
    case Obj(m) => Chars("{") + CompactMembers(m) + Chars("}")
  }

  function CompactItems(items: Items): Octets {
    match items
    case NoItems => []
    case Item(head, NoItems) => Compact(head)
    case Item(head, tail) => Compact(head) + (Chars(",") + CompactItems(tail))
  }

  function CompactMembers(m: Members): Octets {
    match m
    case NoMembers => []
    case Member(name, v, NoMembers) => Quoted(name) + Chars(":") + Compact(v)
    case Member(name, v, rest) => Quoted(name) + Chars(":") + Compact(v) + (Chars(",") + CompactMembers(rest))
  }

  // ----- the size is the length of the text -----

  lemma {:induction false} DigitsCount(n: nat)
    ensures |Decimal(n)| == Digits(n)
  {
    if n < 10 {
    } else {
      DigitsCount(n / 10);
    }
  }

  lemma EscapeCounts(c: char)
    ensures |Escaped(c)| == CharSize(c)
  {
  }

  lemma {:induction false} EscapesCount(s: string)
    ensures |AllEscaped(s)| == CharsSize(s, |s|)
  {
    if s == "" {
    } else {
      var front := s[..|s| - 1];
      EscapesCount(front);
      EscapeCounts(s[|s| - 1]);
      SizeOfFront(s, |front|);
    }
  }

  lemma {:induction false} SizeOfFront(s: string, n: nat)
    requires n <= |s|
    ensures CharsSize(s[..n], n) == CharsSize(s, n)
    decreases n
  {
    if n == 0 {
    } else {
      SizeOfFront(s, n - 1);
      SizeOfFront(s[..n], n - 1);
      assert s[..n][..n - 1] == s[..n - 1];
    }
  }

  /** The bytes charged for a document are those of its compact text. */
  lemma {:induction false} SizeIsLength(j: Json)
    ensures |Compact(j)| == Size(j)
  {
    match j
    case Int(n) => DigitsCount(if n < 0 then -n else n);
    case Str(s) => EscapesCount(s);
    case Arr(items) => ItemsLength(items);
    case Obj(m) => MembersLength(m);
    case _ =>
  }

  lemma {:induction false} ItemsLength(items: Items)
    ensures |CompactItems(items)| == ItemsSize(items)
  {
    match items
    case NoItems =>
    case Item(head, tail) =>
      SizeIsLength(head);
      ItemsLength(tail);
  }

  lemma {:induction false} MembersLength(m: Members)
    ensures |CompactMembers(m)| == MembersSize(m)
  {
    match m
    case NoMembers =>
    case Member(name, v, rest) =>
      EscapesCount(name);
      SizeIsLength(v);
      MembersLength(rest);
  }
}
