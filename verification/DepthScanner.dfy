/**
 The nesting scanner that runs before a canonical document is parsed, against the concrete syntax of JSON (section 2 of
 RFC 8259): values with the whitespace around them, strings with their escapes.
 */
module DepthScanner {
  import opened Octets
  import opened Options

  const QUOTE: Byte := 0x22
  const BACKSLASH: Byte := 0x5c
  const COMMA: Byte := 0x2c
  const COLON: Byte := 0x3a

  // ----- concrete syntax -----

  /** An escape is a backslash and the byte after it; the four digits of a `\u` escape are plain. */
  datatype Char = Plain(b: Byte) | Escape(b: Byte)

  datatype Doc =
    | Atom(text: Bytes)
    | Text(chars: seq<Char>)
    | Array(pad: Bytes, items: Items)
    | Object(pad: Bytes, members: Members)

  datatype Items = NoItems | Item(before: Bytes, value: Doc, after: Bytes, rest: Items)

  datatype Members =
    | NoMembers
    | Member(before: Bytes, key: seq<Char>, colon: (Bytes, Bytes), value: Doc, after: Bytes, rest: Members)

  predicate IsOpen(b: Byte) { b == 0x7b || b == 0x5b }

  predicate IsClose(b: Byte) { b == 0x7d || b == 0x5d }

  /** Whitespace, literals and numbers hold no quote and no bracket. */
  predicate Calm(t: Bytes) { forall i | 0 <= i < |t| :: t[i] != QUOTE && !IsOpen(t[i]) && !IsClose(t[i]) }

  predicate CharsOk(cs: seq<Char>) {
    forall i | 0 <= i < |cs| :: cs[i].Plain? ==> cs[i].b != QUOTE && cs[i].b != BACKSLASH
  }

  predicate DocOk(d: Doc) {
    match d
    case Atom(t) => Calm(t)
    case Text(cs) => CharsOk(cs)
    case Array(pad, items) => Calm(pad) && ItemsOk(items)
    case Object(pad, members) => Calm(pad) && MembersOk(members)
  }

  predicate ItemsOk(items: Items) {
    items.Item? ==> Calm(items.before) && DocOk(items.value) && Calm(items.after) && ItemsOk(items.rest)
  }

  predicate MembersOk(ms: Members) {
    ms.Member? ==>
      && Calm(ms.before) && CharsOk(ms.key) && Calm(ms.colon.0) && Calm(ms.colon.1)
      && DocOk(ms.value) && Calm(ms.after) && MembersOk(ms.rest)
  }

  function CharBytes(c: Char): Bytes { if c.Plain? then [c.b] else [BACKSLASH, c.b] }

  function CharsBytes(cs: seq<Char>): Bytes { if cs == [] then [] else CharBytes(cs[0]) + CharsBytes(cs[1..]) }

  function Quoted(cs: seq<Char>): Bytes { [QUOTE] + (CharsBytes(cs) + [QUOTE]) }

  function DocBytes(d: Doc): Bytes {
    match d
    case Atom(t) => t
    case Text(cs) => Quoted(cs)
    case Array(pad, items) => [0x5b] + (pad + (ItemsBytes(items) + [0x5d]))
    case Object(pad, members) => [0x7b] + (pad + (MembersBytes(members) + [0x7d]))
  }

  function ItemsBytes(items: Items): Bytes {
    match items
    case NoItems => []
    case Item(before, value, after, rest) =>
      before + (DocBytes(value) + (after + Separated(rest.Item?, ItemsBytes(rest))))
  }

  function MembersBytes(ms: Members): Bytes {
    match ms
    case NoMembers => []
    case Member(before, key, colon, value, after, rest) =>
      before + (Quoted(key) + ((colon.0 + [COLON] + colon.1)
      + (DocBytes(value) + (after + Separated(rest.Member?, MembersBytes(rest))))))
  }

  function Separated(more: bool, rest: Bytes): Bytes { (if more then [COMMA] else []) + rest }

  function Max(a: nat, b: nat): nat { if a < b then b else a }

  /** How many arrays and objects enclose the innermost value, itself included. */
  function Nesting(d: Doc): nat {
    match d
    case Array(_, items) => 1 + ItemsNesting(items)
    case Object(_, members) => 1 + MembersNesting(members)
    case _ => 0
  }

  function ItemsNesting(items: Items): nat {
    if items.NoItems? then 0 else Max(Nesting(items.value), ItemsNesting(items.rest))
  }

  function MembersNesting(ms: Members): nat {
    if ms.NoMembers? then 0 else Max(Nesting(ms.value), MembersNesting(ms.rest))
  }

  /** The syntax characters. */
  lemma SyntaxSpelled(b: Byte)
    ensures QUOTE == '\"' as int && BACKSLASH == '\\' as int && COMMA == ',' as int && COLON == ':' as int
    ensures IsOpen(b) <==> b == '{' as int || b == '[' as int
    ensures IsClose(b) <==> b == '}' as int || b == ']' as int
    ensures DocBytes(Array([], NoItems)) == ['[' as int, ']' as int]
    ensures DocBytes(Object([], NoMembers)) == ['{' as int, '}' as int]
  {
  }

  // ----- the scanner -----

  datatype State = State(depth: nat, inString: bool, escaped: bool)

  function Outside(depth: nat): State { State(depth, false, false) }

  /** One byte; none when the limit is passed or a bracket closes nothing. */
  function Next(s: State, b: Byte, limit: nat): Option<State> {
    if s.inString then
      if s.escaped then Some(s.(escaped := false))
      else if b == BACKSLASH then Some(s.(escaped := true))
      else if b == QUOTE then Some(s.(inString := false))
      else Some(s)
    else if b == QUOTE then Some(s.(inString := true))
    else if IsOpen(b) then if s.depth + 1 <= limit then Some(s.(depth := s.depth + 1)) else None
    else if IsClose(b) then if s.depth == 0 then None else Some(s.(depth := s.depth - 1))
    else Some(s)
  }

  function Run(s: State, t: Bytes, limit: nat): Option<State>
    decreases |t|
  {
    if t == [] then Some(s)
    else
      var n := Next(s, t[0], limit);
      if n.None? then None else Run(n.value, t[1..], limit)
  }

  /** The loop: accepts exactly when the whole run ends outside a string and balanced. */
  method Scan(t: Bytes, limit: nat) returns (ok: bool)
    ensures ok <==> Run(Outside(0), t, limit).Some?
                    && !Run(Outside(0), t, limit).value.inString && Run(Outside(0), t, limit).value.depth == 0
  {
    var depth: nat, inString, escaped := 0, false, false;
    var i := 0;
    while i < |t|
      invariant i <= |t|
      invariant Run(Outside(0), t, limit) == Run(State(depth, inString, escaped), t[i..], limit)
    {
      ghost var s := State(depth, inString, escaped);
      var b := t[i];
      assert t[i..][0] == b && t[i..][1..] == t[i + 1..];
      if inString {
        if escaped {
          escaped := false;
        } else if b == BACKSLASH {
          escaped := true;
        } else if b == QUOTE {
          inString := false;
        }
      } else if b == QUOTE {
        inString := true;
      } else if IsOpen(b) {
        depth := depth + 1;
        if depth > limit { return false; }
      } else if IsClose(b) {
        if depth == 0 { return false; }
        depth := depth - 1;
      }
      assert Next(s, b, limit) == Some(State(depth, inString, escaped));
      i := i + 1;
    }
    assert t[i..] == [];
    return !inString && depth == 0;
  }

  // ----- the scanner follows the syntax -----

  lemma {:induction false} RunSplits(s: State, a: Bytes, b: Bytes, limit: nat)
    ensures Run(s, a + b, limit) == if Run(s, a, limit).None? then None else Run(Run(s, a, limit).value, b, limit)
    decreases |a|
  {
    if a == [] {
      assert a + b == b;
    } else {
      assert (a + b)[0] == a[0] && (a + b)[1..] == a[1..] + b;
      var n := Next(s, a[0], limit);
      if n.Some? { RunSplits(n.value, a[1..], b, limit); }
    }
  }

  lemma {:induction false} RunCalm(depth: nat, t: Bytes, limit: nat)
    requires Calm(t)
    ensures Run(Outside(depth), t, limit) == Some(Outside(depth))
  {
    if t == [] {
    } else {
      RunCalm(depth, t[1..], limit);
    }
  }

  /** Quotes, backslashes and brackets inside a string change nothing. */
  lemma {:induction false} RunChars(depth: nat, cs: seq<Char>, limit: nat)
    requires CharsOk(cs)
    ensures Run(State(depth, true, false), CharsBytes(cs) + [QUOTE], limit) == Some(Outside(depth))
  {
    var inside := State(depth, true, false);
    if cs == [] {
      assert CharsBytes(cs) + [QUOTE] == [QUOTE];
      assert Run(Outside(depth), [], limit) == Some(Outside(depth));
    } else {
      var rest := CharsBytes(cs[1..]) + [QUOTE];
      RunChars(depth, cs[1..], limit);
      assert CharsBytes(cs) + [QUOTE] == CharBytes(cs[0]) + rest;
      RunSplits(inside, CharBytes(cs[0]), rest, limit);
      RunChar(depth, cs[0], limit);
    }
  }

  lemma RunChar(depth: nat, c: Char, limit: nat)
    requires c.Plain? ==> c.b != QUOTE && c.b != BACKSLASH
    ensures Run(State(depth, true, false), CharBytes(c), limit) == Some(State(depth, true, false))
  {
    var inside := State(depth, true, false);
    if c.Plain? {
      assert Run(inside, [], limit) == Some(inside);
    } else {
      assert [BACKSLASH, c.b][1..] == [c.b];
      assert Run(State(depth, true, true), [c.b], limit) == Run(inside, [], limit);
    }
  }

  lemma RunQuoted(depth: nat, cs: seq<Char>, limit: nat)
    requires CharsOk(cs)
    ensures Run(Outside(depth), Quoted(cs), limit) == Some(Outside(depth))
  {
    RunChars(depth, cs, limit);
    assert Quoted(cs)[1..] == CharsBytes(cs) + [QUOTE];
  }

  /** The state after a piece that nests `nesting` deep, when that fits. */
  function After(depth: nat, nesting: nat, limit: nat): Option<State> {
    if depth + nesting <= limit then Some(Outside(depth)) else None
  }

  /** Brackets around a calm pad and a body. */
  lemma RunGroup(depth: nat, open: Byte, pad: Bytes, body: Bytes, close: Byte, nesting: nat, limit: nat)
    requires IsOpen(open) && IsClose(close) && Calm(pad) && depth <= limit
    requires depth + 1 <= limit ==> Run(Outside(depth + 1), body, limit) == After(depth + 1, nesting, limit)
    ensures Run(Outside(depth), [open] + (pad + (body + [close])), limit) == After(depth, 1 + nesting, limit)
  {
    var t := [open] + (pad + (body + [close]));
    assert t[1..] == pad + (body + [close]);
    if depth + 1 <= limit {
      var inner := Outside(depth + 1);
      RunCalm(depth + 1, pad, limit);
      RunSplits(inner, pad, body + [close], limit);
      RunSplits(inner, body, [close], limit);
      assert Run(Outside(depth), [], limit) == Some(Outside(depth));
    }
  }

  /** A calm piece, then the rest. */
  lemma RunAfterCalm(depth: nat, calm: Bytes, rest: Bytes, limit: nat)
    requires Calm(calm)
    ensures Run(Outside(depth), calm + rest, limit) == Run(Outside(depth), rest, limit)
  {
    RunCalm(depth, calm, limit);
    RunSplits(Outside(depth), calm, rest, limit);
  }

  lemma RunSeparated(depth: nat, more: bool, rest: Bytes, limit: nat)
    ensures Run(Outside(depth), Separated(more, rest), limit) == Run(Outside(depth), rest, limit)
  {
    RunAfterCalm(depth, if more then [COMMA] else [], rest, limit);
  }

  /** From any depth within the limit, a value is passed without a trace exactly when its nesting fits. */
  lemma {:induction false} RunDoc(depth: nat, d: Doc, limit: nat)
    requires DocOk(d) && depth <= limit
    ensures Run(Outside(depth), DocBytes(d), limit) == After(depth, Nesting(d), limit)
    decreases d
  {
    match d
    case Atom(t) => RunCalm(depth, t, limit);
    case Text(cs) => RunQuoted(depth, cs, limit);
    case Array(pad, items) =>
      if depth + 1 <= limit { RunItems(depth + 1, items, limit); }
      RunGroup(depth, 0x5b, pad, ItemsBytes(items), 0x5d, ItemsNesting(items), limit);
    case Object(pad, members) =>
      if depth + 1 <= limit { RunMembers(depth + 1, members, limit); }
      RunGroup(depth, 0x7b, pad, MembersBytes(members), 0x7d, MembersNesting(members), limit);
  }

  lemma {:induction false} RunItems(depth: nat, items: Items, limit: nat)
    requires ItemsOk(items) && depth <= limit
    ensures Run(Outside(depth), ItemsBytes(items), limit) == After(depth, ItemsNesting(items), limit)
    decreases items
  {
    if items.NoItems? {
    } else {
      var s := Outside(depth);
      var tail := Separated(items.rest.Item?, ItemsBytes(items.rest));
      RunAfterCalm(depth, items.before, DocBytes(items.value) + (items.after + tail), limit);
      RunDoc(depth, items.value, limit);
      RunSplits(s, DocBytes(items.value), items.after + tail, limit);
      RunAfterCalm(depth, items.after, tail, limit);
      RunSeparated(depth, items.rest.Item?, ItemsBytes(items.rest), limit);
      RunItems(depth, items.rest, limit);
    }
  }

  lemma {:induction false} RunMembers(depth: nat, ms: Members, limit: nat)
    requires MembersOk(ms) && depth <= limit
    ensures Run(Outside(depth), MembersBytes(ms), limit) == After(depth, MembersNesting(ms), limit)
    decreases ms
  {
    if ms.NoMembers? {
    } else {
      var s := Outside(depth);
      var tail := Separated(ms.rest.Member?, MembersBytes(ms.rest));
      var value := DocBytes(ms.value) + (ms.after + tail);
      var colon := ms.colon.0 + [COLON] + ms.colon.1;
      RunAfterCalm(depth, ms.before, Quoted(ms.key) + (colon + value), limit);
      RunQuoted(depth, ms.key, limit);
      RunSplits(s, Quoted(ms.key), colon + value, limit);
      RunAfterCalm(depth, colon, value, limit);
      RunDoc(depth, ms.value, limit);
      RunSplits(s, DocBytes(ms.value), ms.after + tail, limit);
      RunAfterCalm(depth, ms.after, tail, limit);
      RunSeparated(depth, ms.rest.Member?, MembersBytes(ms.rest), limit);
      RunMembers(depth, ms.rest, limit);
    }
  }

  const MAX_DEPTH: nat := 8

  /** A whole document is refused for depth exactly when it nests deeper than the limit; else it ends balanced. */
  lemma ScannerFaithful(before: Bytes, d: Doc, after: Bytes)
    requires Calm(before) && DocOk(d) && Calm(after)
    ensures Run(Outside(0), before + (DocBytes(d) + after), MAX_DEPTH)
            == if Nesting(d) <= 8 then Some(Outside(0)) else None
  {
    RunAfterCalm(0, before, DocBytes(d) + after, MAX_DEPTH);
    RunDoc(0, d, MAX_DEPTH);
    RunSplits(Outside(0), DocBytes(d), after, MAX_DEPTH);
    RunCalm(0, after, MAX_DEPTH);
  }

  /** For every limit, so the peak depth of the run is the nesting of the document. */
  lemma PeakIsNesting(d: Doc, limit: nat)
    requires DocOk(d)
    ensures Run(Outside(0), DocBytes(d), limit).Some? <==> Nesting(d) <= limit
  {
    RunDoc(0, d, limit);
  }
}
