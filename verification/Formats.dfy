/** The string formats of the wire vocabulary. */
module Formats {
  import opened Unicode

  const URN: Text := [0x75, 0x72, 0x6e, 0x3a, 0x75, 0x75, 0x69, 0x64, 0x3a] // urn:uuid:
  const SETTINGS: Text := [0x2f, 0x73, 0x65, 0x74, 0x74, 0x69, 0x6e, 0x67, 0x73] // /settings
  const DOMAIN: Text := [0x2f, 0x64, 0x6f, 0x6d, 0x61, 0x69, 0x6e, 0x2f] // /domain/

  predicate IsDigit(u: Unit) { 0x30 <= u <= 0x39 }

  predicate IsHex(u: Unit, anyCase: bool) {
    IsDigit(u) || 0x61 <= u <= 0x66 || (anyCase && 0x41 <= u <= 0x46)
  }

  predicate HexFrom(t: Text, from: nat, to: nat, anyCase: bool)
    requires to <= |t|
  {
    forall i :: from <= i < to ==> IsHex(t[i], anyCase)
  }

  predicate IsVariant(u: Unit, anyCase: bool) {
    u == 0x38 || u == 0x39 || u == 0x61 || u == 0x62 || (anyCase && (u == 0x41 || u == 0x42))
  }

  /** xxxxxxxx-xxxx-7xxx-[89ab]xxx-xxxxxxxxxxxx */
  predicate IsHyphenated(t: Text, anyCase: bool) {
    && |t| == 36
    && t[8] == t[13] == t[18] == t[23] == 0x2d && t[14] == 0x37 && IsVariant(t[19], anyCase)
    && HexFrom(t, 0, 8, anyCase) && HexFrom(t, 9, 13, anyCase) && HexFrom(t, 15, 18, anyCase)
    && HexFrom(t, 20, 23, anyCase) && HexFrom(t, 24, 36, anyCase)
  }

  predicate IsSimple(t: Text) {
    && |t| == 32 && t[12] == 0x37 && IsVariant(t[16], true)
    && HexFrom(t, 0, 12, true) && HexFrom(t, 13, 16, true) && HexFrom(t, 17, 32, true)
  }

  /** Setup identities are canonical; raw CSV domain values keep the native spellings. */
  predicate IsUuid(t: Text, csv: bool) {
    if !csv then IsHyphenated(t, false)
    else
      var inner :=
        if URN <= t then t[|URN|..]
        else if |t| >= 2 && t[0] == 0x7b && t[|t| - 1] == 0x7d then t[1..|t| - 1]
        else t;
      IsHyphenated(inner, true) || IsSimple(t)
  }

  predicate IsChangePath(t: Text) {
    t == SETTINGS || SETTINGS + [0x2f] <= t || DOMAIN <= t
  }

  predicate AllDigits(t: Text) {
    forall i :: 0 <= i < |t| ==> IsDigit(t[i])
  }

  function Decimal(t: Text): nat
    requires AllDigits(t)
  {
    if t == [] then 0 else 10 * Decimal(t[..|t| - 1]) + (t[|t| - 1] - 0x30)
  }

  const MAX_U32: nat := 0xffff_ffff

  function Unsigned(t: Text): Text {
    if |t| > 0 && t[0] == 0x2d then t[1..] else t
  }

  /** The native evaluator: an optional sign, no leading zero, and a magnitude that parses as u32. */
  predicate IsDelta(t: Text) {
    var digits := Unsigned(t);
    && digits != []
    && ((digits == [0x30] && t == [0x30]) || digits[0] != 0x30)
    && AllDigits(digits)
    && Decimal(digits) <= MAX_U32
  }

  /** The emitted guard: at most ten digits by regular expression, then the magnitude of the number. */
  predicate IsDeltaByPattern(t: Text) {
    || t == [0x30]
    || (var digits := Unsigned(t);
        && 1 <= |digits| <= 10 && AllDigits(digits) && digits[0] != 0x30
        && Decimal(digits) <= MAX_U32)
  }

  function Pow10(n: nat): nat {
    if n == 0 then 1 else 10 * Pow10(n - 1)
  }

  lemma {:induction false} Magnitude(t: Text)
    requires t != [] && AllDigits(t) && t[0] != 0x30
    ensures Decimal(t) >= Pow10(|t| - 1)
  {
    if |t| <= 1 {
    } else {
      Magnitude(t[..|t| - 1]);
    }
  }

  lemma {:induction false} Pow10Grows(m: nat, n: nat)
    requires m <= n
    ensures Pow10(m) <= Pow10(n)
  {
    if m == n {
    } else {
      Pow10Grows(m, n - 1);
    }
  }

  /** The two spellings of the check agree on every text. */
  lemma DeltaAgrees(t: Text)
    ensures IsDelta(t) <==> IsDeltaByPattern(t)
  {
    var digits := Unsigned(t);
    if |digits| > 10 && AllDigits(digits) && digits[0] != 0x30 {
      Magnitude(digits);
      Pow10Grows(10, |digits| - 1);
      assert Decimal(digits) >= 10_000_000_000;
    }
    assert t == [0x30] ==> Decimal(t) == 0;
  }
}
