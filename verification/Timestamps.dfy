/**
 Timestamps of section 5.6 of RFC 3339 with signed six-digit years: the field pattern, the calendar, and the range
 check that is skipped except in the two extreme years.
 */
module Timestamps {
  import opened Options
  import opened Unicode

  // ----- the pattern and its groups -----

  /** The texts of the pattern's parts; `fraction` keeps its point and `zone` its sign. */
  datatype Groups = Groups(
    year: Text, month: Text, day: Text, mark: Unit,
    hour: Text, minute: Text, second: Text, fraction: Text, zone: Text)

  predicate IsDigit(u: Unit) { 0x30 <= u <= 0x39 }

  predicate Digits(t: Text) { forall i | 0 <= i < |t| :: IsDigit(t[i]) }

  predicate TwoDigits(t: Text) { |t| == 2 && Digits(t) }

  predicate IsSign(u: Unit) { u == 0x2b || u == 0x2d }

  predicate YearShaped(t: Text) {
    (|t| == 4 && Digits(t)) || (|t| == 7 && IsSign(t[0]) && Digits(t[1..]))
  }

  predicate FractionShaped(t: Text) { t == [] || (2 <= |t| <= 10 && t[0] == 0x2e && Digits(t[1..])) }

  predicate ZoneShaped(t: Text) {
    || t == [0x5a] || t == [0x7a]
    || (|t| == 6 && IsSign(t[0]) && TwoDigits(t[1..3]) && t[3] == 0x3a && TwoDigits(t[4..6]))
  }

  predicate Shaped(g: Groups) {
    && YearShaped(g.year) && TwoDigits(g.month) && TwoDigits(g.day) && (g.mark == 0x54 || g.mark == 0x74)
    && TwoDigits(g.hour) && TwoDigits(g.minute) && TwoDigits(g.second)
    && FractionShaped(g.fraction) && ZoneShaped(g.zone)
  }

  /** The text between the year and the fraction. */
  function Middle(g: Groups): Text {
    [0x2d] + g.month + [0x2d] + g.day + [g.mark] + g.hour + [0x3a] + g.minute + [0x3a] + g.second
  }

  function Written(g: Groups): Text { g.year + Middle(g) + g.fraction + g.zone }

  function DigitRun(t: Text): (n: nat)
    ensures n <= |t| && Digits(t[..n]) && (n < |t| ==> !IsDigit(t[n]))
  {
    if t == [] || !IsDigit(t[0]) then 0 else
      var n := DigitRun(t[1..]);
      assert t[..1 + n] == [t[0]] + t[1..][..n];
      1 + n
  }

  /** The fraction's length: its point and every digit after it. */
  function FractionLength(t: Text): (n: nat)
    ensures n <= |t|
  {
    if t != [] && t[0] == 0x2e then 1 + DigitRun(t[1..]) else 0
  }

  predicate MiddleMarks(m: Text) {
    |m| == 15 && m[0] == 0x2d && m[3] == 0x2d && m[9] == 0x3a && m[12] == 0x3a
  }

  function Cut(year: Text, m: Text, tail: Text): Groups
    requires |m| == 15
  {
    var f := FractionLength(tail);
    Groups(year, m[1..3], m[4..6], m[6], m[7..9], m[10..12], m[13..15], tail[..f], tail[f..])
  }

  function YearWidth(t: Text): nat { if t != [] && IsSign(t[0]) then 7 else 4 }

  /** The pattern applied to a text. */
  function Exec(t: Text): Option<Groups> { ExecAt(t, YearWidth(t)) }

  function ExecAt(t: Text, y: nat): Option<Groups> {
    if |t| < y + 15 || !MiddleMarks(t[y..y + 15]) then None
    else
      var g := Cut(t[..y], t[y..y + 15], t[y + 15..]);
      if Shaped(g) then Some(g) else None
  }

  lemma CutJoins(year: Text, m: Text, tail: Text)
    requires MiddleMarks(m)
    ensures Written(Cut(year, m, tail)) == year + m + tail
  {
    var g := Cut(year, m, tail);
    assert Middle(g) == m;
    assert g.fraction + g.zone == tail;
  }

  lemma ShapedLength(g: Groups)
    requires Shaped(g)
    ensures |Written(g)| <= 38
  {
  }

  lemma ThreeParts(t: Text, y: nat)
    requires y + 15 <= |t|
    ensures t[..y] + t[y..y + 15] + t[y + 15..] == t
  {
  }

  /** A match splits the text into parts of the right shape. */
  lemma ExecSound(t: Text)
    requires Exec(t).Some?
    ensures Shaped(Exec(t).value) && Written(Exec(t).value) == t
  {
    var y := YearWidth(t);
    var year, m, tail := t[..y], t[y..y + 15], t[y + 15..];
    assert Exec(t).value == Cut(year, m, tail);
    CutJoins(year, m, tail);
    ThreeParts(t, y);
  }

  lemma MiddleParts(g: Groups)
    requires Shaped(g)
    ensures MiddleMarks(Middle(g))
    ensures var m := Middle(g);
      && m[1..3] == g.month && m[4..6] == g.day && m[6] == g.mark
      && m[7..9] == g.hour && m[10..12] == g.minute && m[13..15] == g.second
  {
  }

  lemma {:induction false} RunBeforeZone(d: Text, zone: Text)
    requires Digits(d) && ZoneShaped(zone)
    ensures DigitRun(d + zone) == |d|
  {
    if d == [] {
      assert d + zone == zone;
    } else {
      assert (d + zone)[1..] == d[1..] + zone;
      RunBeforeZone(d[1..], zone);
    }
  }

  lemma TailParts(g: Groups)
    requires Shaped(g)
    ensures FractionLength(g.fraction + g.zone) == |g.fraction|
  {
    if g.fraction != [] {
      assert (g.fraction + g.zone)[1..] == g.fraction[1..] + g.zone;
      RunBeforeZone(g.fraction[1..], g.zone);
    }
  }

  lemma WrittenParts(g: Groups)
    requires Shaped(g)
    ensures var t, y := Written(g), |g.year|;
      && |t| >= y + 15 && t[..y] == g.year && t[y..y + 15] == Middle(g) && t[y + 15..] == g.fraction + g.zone
  {
    MiddleParts(g);
  }

  lemma TailCut(g: Groups)
    requires Shaped(g)
    ensures var tail := g.fraction + g.zone;
            var f := FractionLength(tail); tail[..f] == g.fraction && tail[f..] == g.zone
  {
    TailParts(g);
  }

  /** The pattern finds the parts of every well-shaped text, so they are unique. */
  lemma ExecComplete(g: Groups)
    requires Shaped(g)
    ensures Exec(Written(g)) == Some(g)
  {
    var t := Written(g);
    WrittenParts(g);
    WidthOfYear(t, g.year);
    MiddleParts(g);
    TailCut(g);
    CutAgain(g);
  }

  lemma WidthOfYear(t: Text, year: Text)
    requires YearShaped(year) && |year| <= |t| && t[..|year|] == year
    ensures YearWidth(t) == |year|
  {
    assert t[0] == t[..|year|][0];
  }

  lemma CutAgain(g: Groups)
    requires Shaped(g)
    ensures |Middle(g)| == 15 && Cut(g.year, Middle(g), g.fraction + g.zone) == g
  {
    MiddleParts(g);
    TailCut(g);
  }

  // ----- the calendar -----

  function Number(t: Text): int {
    if t == [] then 0 else 10 * Number(t[..|t| - 1]) + (t[|t| - 1] as int - 0x30)
  }

  predicate Leap(year: int) { year % 4 == 0 && (year % 100 != 0 || year % 400 == 0) }

  function MonthLength(year: int, month: int): int {
    if month == 2 then if Leap(year) then 29 else 28
    else if month == 4 || month == 6 || month == 9 || month == 11 then 30 else 31
  }

  predicate IsCalendarDate(year: int, minusZero: bool, month: int, day: int) {
    && !minusZero && -9999 <= year <= 9999 && 1 <= month <= 12
    && 1 <= day <= MonthLength(year, month)
  }

  /** Days from the epoch to the first of a year, as ECMAScript counts them. */
  function YearStart(year: int): int {
    365 * (year - 1970) + (year - 1969) / 4 - (year - 1901) / 100 + (year - 1601) / 400
  }

  function YearLength(year: int): int { if Leap(year) then 366 else 365 }

  /** Days before a month of its year. */
  function MonthStart(year: int, month: int): int {
    if month <= 1 then 0 else MonthStart(year, month - 1) + MonthLength(year, month - 1)
  }

  function DayNumber(year: int, month: int, day: int): int {
    YearStart(year) + MonthStart(year, month) + day - 1
  }

  /** `Date.UTC` in seconds, which reads the years 0 to 99 as 1900 to 1999. */
  function DateUtc(year: int, month: int, day: int, hour: int, minute: int, second: int): int {
    86400 * DayNumber(if 0 <= year <= 99 then 1900 + year else year, month, day) + 3600 * hour + 60 * minute + second
  }

  lemma FourYears(year: int)
    ensures (year + 1 - 1969) / 4 == (year - 1969) / 4 + if year % 4 == 0 then 1 else 0
  {
    var q, r := year / 4, year % 4;
    assert year + 1 - 1969 == 4 * (q - 492) + r;
    assert (year + 1 - 1969) / 4 == q - 492;
    assert (year - 1969) / 4 == if r == 0 then q - 493 else q - 492;
  }

  lemma Centuries(year: int)
    ensures (year + 1 - 1901) / 100 == (year - 1901) / 100 + if year % 100 == 0 then 1 else 0
  {
    var q, r := year / 100, year % 100;
    assert year + 1 - 1901 == 100 * (q - 19) + r;
    assert (year + 1 - 1901) / 100 == q - 19;
    assert (year - 1901) / 100 == if r == 0 then q - 20 else q - 19;
  }

  lemma FourCenturies(year: int)
    ensures (year + 1 - 1601) / 400 == (year - 1601) / 400 + if year % 400 == 0 then 1 else 0
  {
    var q, r := year / 400, year % 400;
    assert year + 1 - 1601 == 400 * (q - 4) + r;
    assert (year + 1 - 1601) / 400 == q - 4;
    assert (year - 1601) / 400 == if r == 0 then q - 5 else q - 4;
  }

  /** A multiple of 400 is one of 100, and a multiple of 100 one of 4. */
  lemma Cycles(year: int)
    ensures year % 400 == 0 ==> year % 100 == 0
    ensures year % 100 == 0 ==> year % 4 == 0
  {
    if year % 100 == 0 { assert year == 4 * (25 * (year / 100)); }
    if year % 400 == 0 { assert year == 100 * (4 * (year / 400)); }
  }

  /** The count steps by the length of each year. */
  lemma YearSteps(year: int)
    ensures YearStart(year + 1) == YearStart(year) + YearLength(year)
  {
    FourYears(year);
    Centuries(year);
    FourCenturies(year);
    Cycles(year);
  }

  lemma {:induction false} YearsGrow(first: int, last: int)
    requires first <= last
    ensures YearStart(last) >= YearStart(first) + 365 * (last - first)
    decreases last - first
  {
    if first == last {
    } else {
      YearsGrow(first, last - 1);
      YearSteps(last - 1);
    }
  }

  lemma WholeYear(year: int)
    ensures MonthStart(year, 12) + 31 == YearLength(year)
    ensures MonthStart(year, 1) == 0
  {
    var february := MonthLength(year, 2);
    assert MonthStart(year, 2) == 31;
    assert MonthStart(year, 3) == 31 + february;
    assert MonthStart(year, 5) == MonthStart(year, 4) + 30 == 92 + february;
    assert MonthStart(year, 7) == MonthStart(year, 6) + 30 == 153 + february;
    assert MonthStart(year, 9) == MonthStart(year, 8) + 31 == 215 + february;
    assert MonthStart(year, 11) == MonthStart(year, 10) + 31 == 276 + february;
  }

  datatype Date = Date(year: int, month: int, day: int)

  /** The day after a calendar date. */
  function NextDay(d: Date): Date {
    if d.day < MonthLength(d.year, d.month) then d.(day := d.day + 1)
    else if d.month < 12 then Date(d.year, d.month + 1, 1)
    else Date(d.year + 1, 1, 1)
  }

  /** The calendar and the day count agree: consecutive dates have consecutive day numbers. */
  lemma DaysAreConsecutive(d: Date)
    requires IsCalendarDate(d.year, false, d.month, d.day)
    ensures var n := NextDay(d); DayNumber(n.year, n.month, n.day) == DayNumber(d.year, d.month, d.day) + 1
    ensures var n := NextDay(d); n.year <= 9999 ==> IsCalendarDate(n.year, false, n.month, n.day)
  {
    YearSteps(d.year);
    WholeYear(d.year);
  }

  lemma {:induction false} MonthsInYear(year: int, month: int)
    requires 1 <= month <= 12
    ensures 0 <= MonthStart(year, month)
    ensures MonthStart(year, month) + MonthLength(year, month) <= YearLength(year)
    decreases 12 - month
  {
    if month == 12 {
      WholeYear(year);
    } else {
      MonthsInYear(year, month + 1);
    }
    MonthsNonNegative(year, month);
  }

  lemma {:induction false} MonthsNonNegative(year: int, month: int)
    ensures MonthStart(year, month) >= 0
    decreases if month > 0 then month else 0
  {
    if month > 1 { MonthsNonNegative(year, month - 1); }
  }

  // ----- the check -----

  const MIN_SECOND := -377705023201
  const MAX_SECOND := 253402207200

  function Year(t: Text): int
    requires YearShaped(t)
  {
    if |t| == 4 then Number(t) else if t[0] == 0x2d then -Number(t[1..]) else Number(t[1..])
  }

  /** The sign was kept on a zero year. */
  predicate MinusZero(t: Text)
    requires YearShaped(t)
  {
    |t| == 7 && t[0] == 0x2d && Number(t[1..]) == 0
  }

  function OffsetHours(g: Groups): int requires Shaped(g) { if |g.zone| == 6 then Number(g.zone[1..3]) else 0 }

  function OffsetMinutes(g: Groups): int requires Shaped(g) { if |g.zone| == 6 then Number(g.zone[4..6]) else 0 }

  function Offset(g: Groups): int
    requires Shaped(g)
  {
    (OffsetHours(g) * 3600 + OffsetMinutes(g) * 60) * if g.zone[0] == 0x2d then -1 else 1
  }

  predicate FieldsValid(g: Groups)
    requires Shaped(g)
  {
    && IsCalendarDate(Year(g.year), MinusZero(g.year), Number(g.month), Number(g.day))
    && Number(g.hour) <= 23 && Number(g.minute) <= 59 && Number(g.second) <= 59
    && OffsetHours(g) <= 23 && OffsetMinutes(g) <= 59
  }

  predicate IsTimestamp(t: Text) {
    |t| <= 40 && Exec(t).Some? &&
    var g := Exec(t).value;
    FieldsValid(g) &&
    var year := Year(g.year);
    (year != -9999 && year != 9999) ||
    var instant := DateUtc(year, Number(g.month), Number(g.day), Number(g.hour), Number(g.minute), Number(g.second))
                   - Offset(g);
    MIN_SECOND <= instant <= MAX_SECOND
  }

  // ----- what it decides -----

  function Power10(n: nat): (p: nat)
    ensures p > 0
  {
    if n == 0 then 1 else 10 * Power10(n - 1)
  }

  /** The fraction in nanoseconds, padded to nine digits. */
  function Nanoseconds(fraction: Text): int
    requires FractionShaped(fraction)
  {
    if fraction == [] then 0 else Number(fraction[1..]) * Power10(10 - |fraction|)
  }

  /** The instant in nanoseconds since the epoch. */
  function Instant(g: Groups): int
    requires Shaped(g)
  {
    1_000_000_000 *
      (86400 * DayNumber(Year(g.year), Number(g.month), Number(g.day))
       + 3600 * Number(g.hour) + 60 * Number(g.minute) + Number(g.second) - Offset(g))
    + Nanoseconds(g.fraction)
  }

  predicate Supported(instant: int) {
    1_000_000_000 * MIN_SECOND <= instant <= 1_000_000_000 * MAX_SECOND + 999_999_999
  }

  lemma {:induction false} NumberRange(t: Text)
    requires Digits(t)
    ensures 0 <= Number(t) < Power10(|t|)
  {
    if t == [] {
    } else {
      NumberRange(t[..|t| - 1]);
    }
  }

  lemma {:induction false} PowerSplits(a: nat, b: nat)
    ensures Power10(a + b) == Power10(a) * Power10(b)
  {
    if a == 0 {
    } else {
      PowerSplits(a - 1, b);
      assert Power10(a + b) == 10 * (Power10(a - 1) * Power10(b));
    }
  }

  /** A fraction never reaches the next second. */
  lemma FractionInSecond(fraction: Text)
    requires FractionShaped(fraction)
    ensures 0 <= Nanoseconds(fraction) < 1_000_000_000
  {
    if fraction != [] {
      var k := |fraction| - 1;
      NumberRange(fraction[1..]);
      PowerSplits(k, 9 - k);
      Below(Number(fraction[1..]), Power10(k), Power10(9 - k));
      assert Power10(9) == 1_000_000_000;
    }
  }

  lemma Below(a: int, b: int, c: nat)
    requires 0 <= a < b && c > 0
    ensures 0 <= a * c < b * c
  {
  }

  /** In every year but the two extremes, no calendar date and offset can leave the supported range. */
  lemma InnerYearsSupported(g: Groups)
    requires Shaped(g) && FieldsValid(g) && -9999 < Year(g.year) < 9999
    ensures Supported(Instant(g))
  {
    var year := Year(g.year);
    YearsGrow(-9998, year);
    YearsGrow(year, 9998);
    YearSteps(9998);
    MonthsInYear(year, Number(g.month));
    YearSteps(year);
    YearsGrow(year + 1, 9999);
    FractionInSecond(g.fraction);
    ClockBounds(g);
    var days := DayNumber(year, Number(g.month), Number(g.day));
    assert YearStart(-9998) <= days < YearStart(9999);
  }

  lemma ClockBounds(g: Groups)
    requires Shaped(g) && FieldsValid(g)
    ensures 0 <= Number(g.hour) && 0 <= Number(g.minute) && 0 <= Number(g.second)
    ensures -86400 < Offset(g) < 86400
  {
    NumberRange(g.hour);
    NumberRange(g.minute);
    NumberRange(g.second);
    if |g.zone| == 6 { NumberRange(g.zone[1..3]); NumberRange(g.zone[4..6]); }
  }

  /**
   The shortcut decides exactly whether the pattern matches, the fields are valid and the instant, to the nanosecond, is
   in the supported range.
   */
  lemma TimestampExact(t: Text)
    ensures IsTimestamp(t) <==>
      Exec(t).Some? && FieldsValid(Exec(t).value) && Supported(Instant(Exec(t).value))
  {
    if Exec(t).Some? {
      ExecSound(t);
      var g := Exec(t).value;
      ShapedLength(g);
      if FieldsValid(g) {
        FractionInSecond(g.fraction);
        if -9999 < Year(g.year) < 9999 { InnerYearsSupported(g); }
      }
    }
  }

  // ----- the fields, the calendar and the range, spelled out -----

  function Value(u: Unit): int { u as int - '0' as int }

  lemma TwoDigitNumber(t: Text)
    requires TwoDigits(t)
    ensures Number(t) == 10 * Value(t[0]) + Value(t[1])
    ensures 0 <= Number(t) <= 99
  {
    var first := t[..1];
    assert first[..0] == [];
    assert Number(first) == Value(t[0]);
  }

  lemma FourDigitNumber(t: Text)
    requires |t| == 4 && Digits(t)
    ensures Number(t) == 1000 * Value(t[0]) + 100 * Value(t[1]) + 10 * Value(t[2]) + Value(t[3])
  {
    TwoDigitNumber(t[..2]);
    assert t[..3][..2] == t[..2];
  }

  lemma SixDigitNumber(t: Text)
    requires |t| == 6 && Digits(t)
    ensures Number(t) == 100 * Number(t[..4]) + 10 * Value(t[4]) + Value(t[5])
  {
    assert t[..5][..4] == t[..4];
  }

  /** A year has four digits, or a sign and six; a minus sign negates it and is refused on zero. */
  lemma YearSpelled(t: Text)
    requires YearShaped(t)
    ensures |t| == 4 ==> Year(t) == Number(t) && !MinusZero(t)
    ensures |t| == 7 ==> t[0] == '+' as int || t[0] == '-' as int
    ensures |t| == 7 && t[0] == '+' as int ==> Year(t) == Number(t[1..]) && !MinusZero(t)
    ensures |t| == 7 && t[0] == '-' as int ==> Year(t) == 0 - Number(t[1..]) && (MinusZero(t) <==> Number(t[1..]) == 0)
  {
  }

  /** Between the year and the fraction: dashes in the date, a `T` of either case, colons in the time. */
  lemma MiddleSpelled(g: Groups)
    requires Shaped(g)
    ensures g.mark == 'T' as int || g.mark == 't' as int
    ensures Middle(g) == Encode("-") + g.month + Encode("-") + g.day + [g.mark]
                         + g.hour + Encode(":") + g.minute + Encode(":") + g.second
  {
    assert Encode("-") == ['-' as int] && Encode(":") == [':' as int] by { OneUnit('-'); OneUnit(':'); }
  }

  lemma OneUnit(c: char)
    requires c < '\U{10000}'
    ensures Encode([c]) == [c as int]
  {
    assert [c][1..] == "";
    assert EncodeOne(c as int) + [] == EncodeOne(c as int);
  }

  /** A fraction is a point and one to nine digits. */
  lemma FractionSpelled(t: Text)
    ensures FractionShaped(t) <==> t == [] || (1 <= |t| - 1 <= 9 && t[0] == '.' as int && Digits(t[1..]))
  {
  }

  /** It counts in billionths. */
  lemma BillionthsSpelled(t: Text)
    requires FractionShaped(t)
    ensures t == [] ==> Nanoseconds(t) == 0
    ensures t != [] ==> Nanoseconds(t) * Power10(|t| - 1) == Number(t[1..]) * 1_000_000_000
  {
    if t != [] {
      var n, a, b := Number(t[1..]), Power10(10 - |t|), Power10(|t| - 1);
      PowersMeet(|t| - 1);
      Regroup(n, a, b);
    }
  }

  lemma Regroup(n: int, a: int, b: int)
    ensures (n * a) * b == n * (a * b)
  {
  }

  lemma PowersMeet(n: nat)
    requires n <= 9
    ensures Power10(9 - n) * Power10(n) == 1_000_000_000
  {
    assert Power10(0) == 1 && Power10(1) == 10 && Power10(2) == 100 && Power10(3) == 1000;
    assert Power10(4) == 10000 && Power10(5) == 100000 && Power10(6) == 1000000;
    assert Power10(7) == 10000000 && Power10(8) == 100000000 && Power10(9) == 1000000000;
  }

  /** A zone is `Z` of either case, or a signed offset in hours and minutes, subtracted from the local time. */
  lemma ZoneSpelled(g: Groups)
    requires Shaped(g)
    ensures |g.zone| == 1 ==> (g.zone[0] == 'Z' as int || g.zone[0] == 'z' as int) && Offset(g) == 0
    ensures |g.zone| != 1 ==>
              && |g.zone| == 6 && (g.zone[0] == '+' as int || g.zone[0] == '-' as int) && g.zone[3] == ':' as int
              && OffsetHours(g) == 10 * Value(g.zone[1]) + Value(g.zone[2])
              && OffsetMinutes(g) == 10 * Value(g.zone[4]) + Value(g.zone[5])
              && Offset(g) == if g.zone[0] == '+' as int then 3600 * OffsetHours(g) + 60 * OffsetMinutes(g)
                              else 0 - 3600 * OffsetHours(g) - 60 * OffsetMinutes(g)
  {
    if |g.zone| == 6 {
      TwoDigitNumber(g.zone[1..3]);
      TwoDigitNumber(g.zone[4..6]);
    }
  }

  predicate EveryFourYears(year: int) { year % 4 == 0 && (year % 100 != 0 || year % 400 == 0) }

  /** The dates: twelve months with these lengths, from year -9999 to 9999. */
  lemma CalendarSpelled(year: int, minusZero: bool, month: int, day: int)
    ensures IsCalendarDate(year, minusZero, month, day) <==>
            && !minusZero && -9999 <= year <= 9999 && 1 <= day
            && (|| (month in {1, 3, 5, 7, 8, 10, 12} && day <= 31)
                || (month in {4, 6, 9, 11} && day <= 30)
                || (month == 2 && day <= if EveryFourYears(year) then 29 else 28))
  {
  }

  /** The clock: these bounds on the written numbers, and the date's. */
  lemma ClockSpelled(g: Groups)
    requires Shaped(g)
    ensures FieldsValid(g) <==>
            && IsCalendarDate(Year(g.year), MinusZero(g.year), Number(g.month), Number(g.day))
            && 0 <= Number(g.hour) < 24 && 0 <= Number(g.minute) < 60 && 0 <= Number(g.second) < 60
            && (|g.zone| == 6 ==> 0 <= OffsetHours(g) < 24 && 0 <= OffsetMinutes(g) < 60)
  {
    TwoDigitNumber(g.hour);
    TwoDigitNumber(g.minute);
    TwoDigitNumber(g.second);
    if |g.zone| == 6 {
      TwoDigitNumber(g.zone[1..3]);
      TwoDigitNumber(g.zone[4..6]);
    }
  }

  /** The day count starts at 1970-01-01, a day has 86400 seconds, and the years 0 to 99 stand for 1900 to 1999. */
  lemma EpochSpelled(year: int, month: int, day: int, hour: int, minute: int, second: int)
    ensures DayNumber(1970, 1, 1) == 0
    ensures year < 0 || year > 99 ==>
              DateUtc(year, month, day, hour, minute, second) ==
              86400 * DayNumber(year, month, day) + 3600 * hour + 60 * minute + second
    ensures 0 <= year <= 99 ==>
              DateUtc(year, month, day, hour, minute, second) ==
              86400 * DayNumber(1900 + year, month, day) + 3600 * hour + 60 * minute + second
  {
  }

  /** From -9999-01-02T01:59:59Z to the end of the second 9999-12-30T22:00:00Z. */
  lemma RangeSpelled(instant: int)
    ensures DateUtc(-9999, 1, 2, 1, 59, 59) == -377705023201
    ensures DateUtc(9999, 12, 30, 22, 0, 0) == 253402207200
    ensures Supported(instant) <==> -377705023201_000000000 <= instant <= 253402207200_999999999
  {
    WholeYear(9999);
    assert YearStart(-9999) == -4371587;
    assert MonthStart(9999, 12) == 334;
  }
}
