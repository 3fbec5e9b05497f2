/** The string formats written from the parts of their grammar, and read back. */
module FormatGrammar {
  import opened Formats
  import opened Unicode

  // ----- prefixes -----

  /** An ASCII string has one unit per character. */
  function Units(s: string): Text
    requires forall i | 0 <= i < |s| :: s[i] as int < 0x80
  {
    seq(|s|, i requires 0 <= i < |s| => s[i] as int)
  }

  lemma {:induction false} UnitsEncode(s: string)
    requires forall i | 0 <= i < |s| :: s[i] as int < 0x80
    ensures Encode(s) == Units(s)
  {
    if s == "" {
    } else {
      UnitsEncode(s[1..]);
      assert Units(s) == [s[0] as int] + Units(s[1..]);
    }
  }

  lemma UrnSpelled()
    ensures URN == Units("urn:uuid:")
  {
  }

  lemma SettingsSpelled()
    ensures SETTINGS == Units("/settings") && SETTINGS + [0x2f] == Units("/settings/")
  {
  }

  lemma DomainSpelled()
    ensures DOMAIN == Units("/domain/")
  {
  }

  /** A change path is `/settings`, something below it, or something below `/domain`. */
  lemma ChangePathSpelled(t: Text)
    ensures IsChangePath(t) <==> t == Units("/settings") || Units("/settings/") <= t || Units("/domain/") <= t
  {
    SettingsSpelled();
    DomainSpelled();
  }

  // ----- identifiers -----

  predicate Among(u: Unit, alphabet: string) { exists c | c in alphabet :: u == c as int }

  function Alphabet(anyCase: bool): string { if anyCase then "0123456789abcdefABCDEF" else "0123456789abcdef" }

  function Variants(anyCase: bool): string { if anyCase then "89abAB" else "89ab" }

  predicate Run(t: Text, n: nat, anyCase: bool) { |t| == n && forall u | u in t :: Among(u, Alphabet(anyCase)) }

  /** The digits of an identifier of version 7 around its version and variant. */
  datatype Uuid = Uuid(a: Text, b: Text, c: Text, variant: Unit, d: Text, e: Text)

  predicate Spells(u: Uuid, anyCase: bool) {
    && Run(u.a, 8, anyCase) && Run(u.b, 4, anyCase) && Run(u.c, 3, anyCase)
    && Among(u.variant, Variants(anyCase)) && Run(u.d, 3, anyCase) && Run(u.e, 12, anyCase)
  }

  const DASH: Text := ['-' as int]

  function Front(u: Uuid): Text { u.a + DASH + u.b + DASH + ['7' as int] + u.c }

  function Back(u: Uuid): Text { DASH + [u.variant] + u.d + DASH + u.e }

  function Hyphenated(u: Uuid): Text { Front(u) + Back(u) }

  function Simple(u: Uuid): Text { u.a + u.b + ['7' as int] + u.c + [u.variant] + u.d + u.e }

  lemma HexSpelled(u: Unit, anyCase: bool)
    ensures IsHex(u, anyCase) <==> Among(u, Alphabet(anyCase))
    ensures IsVariant(u, anyCase) <==> Among(u, Variants(anyCase))
  {
    if IsHex(u, anyCase) { assert u as char in Alphabet(anyCase); }
    if IsVariant(u, anyCase) { assert u as char in Variants(anyCase); }
  }

  lemma RunSpelled(t: Text, i: nat, j: nat, anyCase: bool)
    requires i <= j <= |t|
    ensures HexFrom(t, i, j, anyCase) <==> Run(t[i..j], j - i, anyCase)
  {
    forall u: Unit ensures IsHex(u, anyCase) <==> Among(u, Alphabet(anyCase)) { HexSpelled(u, anyCase); }
    assert forall k | i <= k < j :: t[k] == t[i..j][k - i];
    assert forall k | 0 <= k < j - i :: t[i..j][k] == t[i + k];
  }

  /** Every identifier of the grammar is accepted. */
  lemma HyphenatedAccepted(u: Uuid, anyCase: bool)
    requires Spells(u, anyCase)
    ensures IsHyphenated(Hyphenated(u), anyCase)
  {
    var t := Hyphenated(u);
    HexSpelled(u.variant, anyCase);
    assert t[0..8] == u.a && t[9..13] == u.b && t[15..18] == u.c && t[20..23] == u.d && t[24..36] == u.e;
    HyphenRuns(t, anyCase);
  }

  lemma HyphenRuns(t: Text, anyCase: bool)
    requires |t| == 36
    ensures HexFrom(t, 0, 8, anyCase) <==> Run(t[0..8], 8, anyCase)
    ensures HexFrom(t, 9, 13, anyCase) <==> Run(t[9..13], 4, anyCase)
    ensures HexFrom(t, 15, 18, anyCase) <==> Run(t[15..18], 3, anyCase)
    ensures HexFrom(t, 20, 23, anyCase) <==> Run(t[20..23], 3, anyCase)
    ensures HexFrom(t, 24, 36, anyCase) <==> Run(t[24..36], 12, anyCase)
  {
    RunSpelled(t, 0, 8, anyCase);
    RunSpelled(t, 9, 13, anyCase);
    RunSpelled(t, 15, 18, anyCase);
    RunSpelled(t, 20, 23, anyCase);
    RunSpelled(t, 24, 36, anyCase);
  }

  /** Everything accepted is an identifier of the grammar. */
  lemma HyphenatedParts(t: Text, anyCase: bool) returns (u: Uuid)
    requires IsHyphenated(t, anyCase)
    ensures Spells(u, anyCase) && t == Hyphenated(u)
  {
    u := Uuid(t[0..8], t[9..13], t[15..18], t[19], t[20..23], t[24..36]);
    HexSpelled(u.variant, anyCase);
    HyphenRuns(t, anyCase);
    Join(t, u);
  }

  lemma Join(t: Text, u: Uuid)
    requires |t| == 36 && t[8] == t[13] == t[18] == t[23] == '-' as int && t[14] == '7' as int
    requires u == Uuid(t[0..8], t[9..13], t[15..18], t[19], t[20..23], t[24..36])
    ensures t == Hyphenated(u)
  {
    assert t[..18] == Front(u);
    assert t[18..] == Back(u);
    assert t == t[..18] + t[18..];
  }

  lemma SimpleAccepted(u: Uuid)
    requires Spells(u, true)
    ensures IsSimple(Simple(u))
  {
    var t := Simple(u);
    HexSpelled(u.variant, true);
    assert t[0..12] == u.a + u.b && t[13..16] == u.c && t[17..32] == u.d + u.e;
    SimpleRuns(t);
  }

  lemma SimpleRuns(t: Text)
    requires |t| == 32
    ensures HexFrom(t, 0, 12, true) <==> Run(t[0..12], 12, true)
    ensures HexFrom(t, 13, 16, true) <==> Run(t[13..16], 3, true)
    ensures HexFrom(t, 17, 32, true) <==> Run(t[17..32], 15, true)
  {
    RunSpelled(t, 0, 12, true);
    RunSpelled(t, 13, 16, true);
    RunSpelled(t, 17, 32, true);
  }

  lemma SimpleParts(t: Text) returns (u: Uuid)
    requires IsSimple(t)
    ensures Spells(u, true) && t == Simple(u)
  {
    u := Uuid(t[0..8], t[8..12], t[13..16], t[16], t[17..20], t[20..32]);
    HexSpelled(u.variant, true);
    SimpleRuns(t);
    assert t[0..12] == u.a + u.b && t[17..32] == u.d + u.e;
  }

  /** How a CSV value may write an identifier: with hyphens, as a URN, in braces, or digits only. */
  predicate WritesCsv(t: Text, u: Uuid) {
    || t == Hyphenated(u)
    || t == Units("urn:uuid:") + Hyphenated(u)
    || t == Units("{") + Hyphenated(u) + Units("}")
    || t == Simple(u)
  }

  /** An identifier is accepted exactly when it is written so; outside CSV only with hyphens and in lowercase. */
  lemma UuidSpelled(t: Text)
    ensures IsUuid(t, false) <==> exists u :: Spells(u, false) && t == Hyphenated(u)
    ensures IsUuid(t, true) <==> exists u :: Spells(u, true) && WritesCsv(t, u)
  {
    if IsUuid(t, false) { var u := HyphenatedParts(t, false); }
    forall u | Spells(u, false) && t == Hyphenated(u) ensures IsUuid(t, false) { HyphenatedAccepted(u, false); }
    if IsUuid(t, true) { var u := CsvParts(t); }
    forall u | Spells(u, true) && WritesCsv(t, u) ensures IsUuid(t, true) { CsvAccepted(t, u); }
  }

  lemma Braces()
    ensures Units("{") == [0x7b] && Units("}") == [0x7d]
  {
  }

  lemma UrnJoins(t: Text)
    requires URN <= t
    ensures t == URN + t[|URN|..]
  {
  }

  lemma BracesJoin(t: Text)
    requires |t| >= 2 && t[0] == 0x7b && t[|t| - 1] == 0x7d
    ensures t == [0x7b] + t[1..|t| - 1] + [0x7d]
  {
  }

  lemma CsvParts(t: Text) returns (u: Uuid)
    requires IsUuid(t, true)
    ensures Spells(u, true) && WritesCsv(t, u)
  {
    UrnSpelled();
    Braces();
    if IsSimple(t) {
      u := SimpleParts(t);
    } else if URN <= t {
      u := HyphenatedParts(t[|URN|..], true);
      UrnJoins(t);
    } else if |t| >= 2 && t[0] == 0x7b && t[|t| - 1] == 0x7d {
      u := HyphenatedParts(t[1..|t| - 1], true);
      BracesJoin(t);
    } else {
      u := HyphenatedParts(t, true);
    }
  }

  lemma CsvAccepted(t: Text, u: Uuid)
    requires Spells(u, true) && WritesCsv(t, u)
    ensures IsUuid(t, true)
  {
    UrnSpelled();
    Braces();
    var inner := Hyphenated(u);
    HyphenatedAccepted(u, true);
    assert IsHex(inner[0], true);
    if t == URN + inner {
      assert t[|URN|..] == inner;
    } else if t == [0x7b] + inner + [0x7d] {
      assert t[1..|t| - 1] == inner && !(URN <= t);
    } else if t == Simple(u) {
      SimpleAccepted(u);
    }
  }

  // ----- signed counts -----

  function Shown(n: nat): Text { if n < 10 then ['0' as int + n] else Shown(n / 10) + ['0' as int + n % 10] }

  /** An integer in decimal. */
  function Integer(k: int): Text { if k < 0 then ['-' as int] + Shown(-k) else Shown(k) }

  lemma {:induction false} ShownReads(n: nat)
    ensures Shown(n) != [] && AllDigits(Shown(n)) && Decimal(Shown(n)) == n
    ensures n > 0 ==> Shown(n)[0] != '0' as int
  {
    var t := Shown(n);
    if n < 10 {
      assert t[..0] == [];
    } else {
      ShownReads(n / 10);
      assert t[..|t| - 1] == Shown(n / 10);
    }
  }

  lemma {:induction false} ReadShows(t: Text)
    requires t != [] && AllDigits(t) && (|t| == 1 || t[0] != '0' as int)
    ensures Shown(Decimal(t)) == t
  {
    if |t| == 1 {
      assert t[..0] == [];
    } else {
      var front := t[..|t| - 1];
      ReadShows(front);
      assert Decimal(front) > 0 by { Magnitude(front); Pow10Positive(|front| - 1); }
      assert t == front + [t[|t| - 1]];
    }
  }

  lemma {:induction false} Pow10Positive(n: nat)
    ensures Pow10(n) >= 1
  {
    if n == 0 {
    } else {
      Pow10Positive(n - 1);
    }
  }

  /** A signed count is an integer of at most 32 bits' magnitude, in decimal. */
  lemma DeltaSpelled(t: Text)
    ensures IsDelta(t) <==> exists k: int :: -4294967295 <= k <= 4294967295 && t == Integer(k)
  {
    if IsDelta(t) {
      var n: int := Decimal(Unsigned(t));
      ReadShows(Unsigned(t));
      assert t == Integer(if t[0] == '-' as int then -n else n);
    }
    forall k: int | -4294967295 <= k <= 4294967295 && t == Integer(k) ensures IsDelta(t) { IntegerAccepted(k); }
  }

  lemma IntegerAccepted(k: int)
    requires -4294967295 <= k <= 4294967295
    ensures IsDelta(Integer(k))
  {
    var n := if k < 0 then -k else k;
    ShownReads(n);
    assert (['-' as int] + Shown(n))[1..] == Shown(n);
  }
}
