/** Instants and their text, by section 21.4.1 of ECMA-262: day numbers, the civil calendar, and the Date Time String
    Format that toISOString writes and the Date constructor reads. Times are milliseconds since 1970. */
module IsoDate {
  const MS_PER_DAY: int := 86400000

  // ---- Calendar ----

  predicate Leap(y: int) {
    y % 4 == 0 && (y % 100 != 0 || y % 400 == 0)
  }

  /** The day number of the first of January of year y. */
  function DayFromYear(y: int): int {
    365 * (y - 1970) + (y - 1969) / 4 - (y - 1901) / 100 + (y - 1601) / 400
  }

  lemma ProductAtLeast(x: int, k: int)
    requires x >= 1 && k > 0
    ensures x * k >= k
  {
  }

  lemma QuotientUnique(q: int, r: int, d: int, m: int, k: int)
    requires 0 <= r < k && 0 <= m < k && q * k + r == d * k + m
    ensures q == d && r == m
  {
    if q > d {
      assert (q - d) * k == q * k - d * k;
      ProductAtLeast(q - d, k);
    } else if q < d {
      assert (d - q) * k == d * k - q * k;
      ProductAtLeast(d - q, k);
    }
  }

  lemma DivMod(q: int, r: int, k: int)
    requires 0 <= r < k
    ensures (q * k + r) / k == q && (q * k + r) % k == r
  {
    var t := q * k + r;
    QuotientUnique(q, r, t / k, t % k, k);
  }

  lemma DivStep(a: int, k: int)
    requires k > 1
    ensures (a + 1) / k == a / k + if (a + 1) % k == 0 then 1 else 0
  {
    var q, r := a / k, a % k;
    assert a == q * k + r;
    if r + 1 < k {
      DivMod(q, r + 1, k);
    } else {
      assert (q + 1) * k == q * k + k;
      DivMod(q + 1, 0, k);
    }
  }

  lemma ModShift(y: int, k: int, j: int)
    requires k > 0
    ensures (y - j * k) % k == y % k
  {
    var q, r := y / k, y % k;
    assert y - j * k == (q - j) * k + r;
    DivMod(q - j, r, k);
  }

  lemma YearLength(y: int)
    ensures DayFromYear(y + 1) == DayFromYear(y) + if Leap(y) then 366 else 365
  {
    DivStep(y - 1969, 4);
    DivStep(y - 1901, 100);
    DivStep(y - 1601, 400);
    ModShift(y, 4, 492);
    ModShift(y, 100, 19);
    ModShift(y, 400, 4);
    Nested(y);
  }

  lemma Nested(y: int)
    ensures y % 400 == 0 ==> y % 100 == 0
    ensures y % 100 == 0 ==> y % 4 == 0
  {
    if y % 400 == 0 {
      DivMod(y / 400 * 4, 0, 100);
    }
    if y % 100 == 0 {
      DivMod(y / 100 * 25, 0, 4);
    }
  }

  lemma {:induction false} YearsOrdered(y: int, z: int)
    requires y <= z
    ensures DayFromYear(y) + 365 * (z - y) <= DayFromYear(z)
    decreases z - y
  {
    if y < z {
      YearsOrdered(y, z - 1);
      YearLength(z - 1);
    }
  }

  /** The last year at or after y that starts by the given day. */
  function YearFrom(day: int, y: int): (r: int)
    requires DayFromYear(y) <= day
    ensures DayFromYear(r) <= day < DayFromYear(r + 1)
    decreases day - DayFromYear(y)
  {
    YearLength(y);
    if DayFromYear(y + 1) <= day then YearFrom(day, y + 1) else y
  }

  function YearOf(day: int): (r: int)
    ensures DayFromYear(r) <= day < DayFromYear(r + 1)
  {
    if day >= 0 then YearFrom(day, 1970)
    else
      YearsOrdered(1970 + day, 1970);
      YearFrom(day, 1970 + day)
  }

  lemma YearUnique(day: int, y: int)
    requires DayFromYear(y) <= day < DayFromYear(y + 1)
    ensures YearOf(day) == y
  {
    var r := YearOf(day);
    if r < y {
      YearsOrdered(r + 1, y);
    } else if y < r {
      YearsOrdered(y + 1, r);
    }
  }

  /** Days of the year before month m, counted from 0. */
  function DaysBefore(m: nat, leap: bool): nat
    requires m <= 12
  {
    var l := if leap then 1 else 0;
    match m
    case 0 => 0
    case 1 => 31
    case 2 => 59 + l
    case 3 => 90 + l
    case 4 => 120 + l
    case 5 => 151 + l
    case 6 => 181 + l
    case 7 => 212 + l
    case 8 => 243 + l
    case 9 => 273 + l
    case 10 => 304 + l
    case 11 => 334 + l
    case _ => 365 + l
  }

  function MonthOf(d: nat, leap: bool): (m: nat)
    requires d < DaysBefore(12, leap)
    ensures m < 12 && DaysBefore(m, leap) <= d < DaysBefore(m + 1, leap)
  {
    if d < DaysBefore(1, leap) then 0
    else if d < DaysBefore(2, leap) then 1
    else if d < DaysBefore(3, leap) then 2
    else if d < DaysBefore(4, leap) then 3
    else if d < DaysBefore(5, leap) then 4
    else if d < DaysBefore(6, leap) then 5
    else if d < DaysBefore(7, leap) then 6
    else if d < DaysBefore(8, leap) then 7
    else if d < DaysBefore(9, leap) then 8
    else if d < DaysBefore(10, leap) then 9
    else if d < DaysBefore(11, leap) then 10
    else 11
  }

  // month and day count from 1, as they are printed.
  datatype Civil = Civil(year: int, month: nat, day: nat)

  datatype Clock = Clock(hour: nat, minute: nat, second: nat, ms: nat)

  predicate LegalDate(f: Civil) {
    && 1 <= f.month <= 12
    && 1 <= f.day <= DaysBefore(f.month, Leap(f.year)) - DaysBefore(f.month - 1, Leap(f.year))
  }

  predicate LegalClock(f: Clock) {
    f.hour < 24 && f.minute < 60 && f.second < 60 && f.ms < 1000
  }

  function DayNumber(f: Civil): int
    requires 1 <= f.month <= 12
  {
    DayFromYear(f.year) + DaysBefore(f.month - 1, Leap(f.year)) + f.day - 1
  }

  /** The d-th day of year y, counted from 0. */
  function CivilIn(y: int, d: nat): (f: Civil)
    requires d < DaysBefore(12, Leap(y))
    ensures LegalDate(f) && DayNumber(f) == DayFromYear(y) + d
  {
    var m := MonthOf(d, Leap(y));
    Civil(y, m + 1, d - DaysBefore(m, Leap(y)) + 1)
  }

  function CivilOf(day: int): (f: Civil)
    ensures LegalDate(f) && DayNumber(f) == day
  {
    var y := YearOf(day);
    YearLength(y);
    CivilIn(y, day - DayFromYear(y))
  }

  lemma MonthUnique(d: nat, leap: bool, m: nat)
    requires m < 12 && DaysBefore(m, leap) <= d < DaysBefore(m + 1, leap)
    ensures d < DaysBefore(12, leap) && MonthOf(d, leap) == m
  {
  }

  lemma DayInYear(f: Civil, d: int)
    requires LegalDate(f) && d == DayNumber(f) - DayFromYear(f.year)
    ensures 0 <= d < DaysBefore(12, Leap(f.year)) && CivilIn(f.year, d) == f
  {
    MonthUnique(d, Leap(f.year), f.month - 1);
  }

  lemma DayOf(f: Civil, day: int)
    requires LegalDate(f) && DayNumber(f) == day
    ensures CivilOf(day) == f
  {
    DayInYear(f, day - DayFromYear(f.year));
    YearLength(f.year);
    YearUnique(day, f.year);
  }

  lemma CivilUnique(f: Civil)
    requires LegalDate(f)
    ensures CivilOf(DayNumber(f)) == f
  {
    DayOf(f, DayNumber(f));
  }

  function Millis(f: Clock): nat {
    f.hour * 3600000 + f.minute * 60000 + f.second * 1000 + f.ms
  }

  function ClockOf(t: nat): (f: Clock)
    requires t < MS_PER_DAY
    ensures LegalClock(f) && Millis(f) == t
  {
    var minutes, seconds := t / 60000, t / 1000;
    DivMod(seconds / 60, seconds % 60 * 1000 + t % 1000, 60000);
    DivMod(minutes / 60, minutes % 60 * 60000 + t % 60000, 3600000);
    Clock(t / 3600000, t / 60000 % 60, t / 1000 % 60, t % 1000)
  }

  lemma ClockUnique(f: Clock)
    requires LegalClock(f)
    ensures Millis(f) < MS_PER_DAY && ClockOf(Millis(f)) == f
  {
    DivMod(f.hour, f.minute * 60000 + f.second * 1000 + f.ms, 3600000);
    DivMod(f.hour * 60 + f.minute, f.second * 1000 + f.ms, 60000);
    DivMod(f.hour * 3600 + f.minute * 60 + f.second, f.ms, 1000);
    DivMod(f.hour, f.minute, 60);
    DivMod(f.hour * 60 + f.minute, f.second, 60);
  }

  // ---- Decimal digits ----

  predicate IsDigit(c: char) {
    '0' <= c <= '9'
  }

  predicate Digits(s: string) {
    forall c <- s :: IsDigit(c)
  }

  function Pow10(k: nat): nat {
    if k == 0 then 1 else 10 * Pow10(k - 1)
  }

  /** n in k digits; the higher digits are dropped. */
  function Padded(n: nat, k: nat): (s: string)
    ensures |s| == k && Digits(s)
  {
    if k == 0 then "" else Padded(n / 10, k - 1) + ['0' + (n % 10) as char]
  }

  function Number(s: string): (n: nat)
    requires Digits(s)
    ensures n < Pow10(|s|)
  {
    if s == "" then 0
    else
      assert IsDigit(s[|s| - 1]);
      Number(s[..|s| - 1]) * 10 + (s[|s| - 1] as int - '0' as int)
  }

  lemma {:induction false} NumberOfPadded(n: nat, k: nat)
    requires n < Pow10(k)
    ensures Number(Padded(n, k)) == n
  {
    if k > 0 {
      NumberOfPadded(n / 10, k - 1);
      var s := Padded(n, k);
      assert s[..|s| - 1] == Padded(n / 10, k - 1);
    }
  }

  lemma PaddedStep(m: nat, d: nat, k: nat)
    requires d < 10 && k > 0
    ensures Padded(m * 10 + d, k) == Padded(m, k - 1) + ['0' + d as char]
  {
  }

  lemma {:induction false} PaddedOfNumber(s: string)
    requires Digits(s)
    ensures Padded(Number(s), |s|) == s
  {
    if s != "" {
      var front, last := s[..|s| - 1], s[|s| - 1];
      assert IsDigit(last);
      PaddedOfNumber(front);
      PaddedStep(Number(front), last as int - '0' as int, |s|);
      assert s == front + [last];
    }
  }

  // ---- Text ----

  datatype Time = Invalid | At(ms: int)

  function YearText(y: int): string {
    if 0 <= y <= 9999 then Padded(y, 4)
    else if y < 0 then "-" + Padded(-y, 6)
    else "+" + Padded(y, 6)
  }

  function FieldText(d: Civil, c: Clock): string {
    YearText(d.year) + "-" + Padded(d.month, 2) + "-" + Padded(d.day, 2)
    + "T" + Padded(c.hour, 2) + ":" + Padded(c.minute, 2) + ":" + Padded(c.second, 2) + "." + Padded(c.ms, 3) + "Z"
  }

  /** The text of an instant, as toISOString writes it. */
  function Text(t: int): string {
    DayText(t / MS_PER_DAY, t % MS_PER_DAY)
  }

  function DayText(day: int, rest: nat): string
    requires rest < MS_PER_DAY
  {
    FieldText(CivilOf(day), ClockOf(rest))
  }

  predicate InCommonYears(t: int) {
    0 <= CivilOf(t / MS_PER_DAY).year <= 9999
  }

  /** The strings that match dddd-dd-ddTdd:dd:dd.dddZ. */
  predicate IsoShaped(s: string) {
    && |s| == 24
    && Digits(s[0..4]) && s[4] == '-' && Digits(s[5..7]) && s[7] == '-' && Digits(s[8..10]) && s[10] == 'T'
    && Digits(s[11..13]) && s[13] == ':' && Digits(s[14..16]) && s[16] == ':' && Digits(s[17..19]) && s[19] == '.'
    && Digits(s[20..23]) && s[23] == 'Z'
  }

  function DateIn(s: string): Civil
    requires IsoShaped(s)
  {
    Civil(Number(s[0..4]), Number(s[5..7]), Number(s[8..10]))
  }

  function ClockIn(s: string): Clock
    requires IsoShaped(s)
  {
    Clock(Number(s[11..13]), Number(s[14..16]), Number(s[17..19]), Number(s[20..23]))
  }

  /** The Date constructor on a string of the right shape. Fields out of range make the string no instance of the
      format, and what it then means is left to the implementation: that is the parameter. */
  function Parse(s: string, outOfRange: string -> Time): Time
    requires IsoShaped(s)
  {
    var d, c := DateIn(s), ClockIn(s);
    if LegalDate(d) && LegalClock(c) then At(DayNumber(d) * MS_PER_DAY + Millis(c))
    else if LegalDate(d) && c == Clock(24, 0, 0, 0) then At((DayNumber(d) + 1) * MS_PER_DAY)
    else outOfRange(s)
  }

  /** The string names an instant in the one way toISOString would: every field is in range. */
  predicate Canonical(s: string) {
    IsoShaped(s) && LegalDate(DateIn(s)) && LegalClock(ClockIn(s))
  }

  lemma TextSlices(d: Civil, c: Clock)
    requires 0 <= d.year <= 9999
    ensures var s := FieldText(d, c);
            && |s| == 24
            && s[0..4] == Padded(d.year, 4) && s[5..7] == Padded(d.month, 2) && s[8..10] == Padded(d.day, 2)
            && s[11..13] == Padded(c.hour, 2) && s[14..16] == Padded(c.minute, 2) && s[17..19] == Padded(c.second, 2)
            && s[20..23] == Padded(c.ms, 3)
            && s[4] == '-' == s[7] && s[10] == 'T' && s[13] == ':' == s[16] && s[19] == '.' && s[23] == 'Z'
  {
  }

  lemma NumbersOfText(d: Civil, c: Clock)
    requires 0 <= d.year <= 9999 && LegalDate(d) && LegalClock(c)
    ensures var s := FieldText(d, c);
            IsoShaped(s) && DateIn(s) == d && ClockIn(s) == c
  {
    TextSlices(d, c);
    assert Pow10(4) == 10000 && Pow10(2) == 100 && Pow10(3) == 1000;
    NumberOfPadded(d.year, 4);
    NumberOfPadded(d.month, 2);
    NumberOfPadded(d.day, 2);
    NumberOfPadded(c.hour, 2);
    NumberOfPadded(c.minute, 2);
    NumberOfPadded(c.second, 2);
    NumberOfPadded(c.ms, 3);
  }

  /** Only dates of four-digit years print in the shape that is read back. */
  lemma ShapedInCommonYears(t: int)
    ensures IsoShaped(Text(t)) <==> InCommonYears(t)
  {
    if InCommonYears(t) {
      NumbersOfText(CivilOf(t / MS_PER_DAY), ClockOf(t % MS_PER_DAY));
    } else {
      assert |Text(t)| == 27;
    }
  }

  lemma ParseOfText(t: int, outOfRange: string -> Time)
    requires InCommonYears(t)
    ensures Canonical(Text(t)) && Parse(Text(t), outOfRange) == At(t)
  {
    NumbersOfText(CivilOf(t / MS_PER_DAY), ClockOf(t % MS_PER_DAY));
  }

  lemma TextOfNumbers(s: string)
    requires IsoShaped(s)
    ensures FieldText(DateIn(s), ClockIn(s)) == s
  {
    PaddedOfNumber(s[0..4]);
    PaddedOfNumber(s[5..7]);
    PaddedOfNumber(s[8..10]);
    PaddedOfNumber(s[11..13]);
    PaddedOfNumber(s[14..16]);
    PaddedOfNumber(s[17..19]);
    PaddedOfNumber(s[20..23]);
    assert Pow10(4) == 10000;
    TextSlices(DateIn(s), ClockIn(s));
    Pieces(s, FieldText(DateIn(s), ClockIn(s)));
  }

  lemma Pieces(s: string, t: string)
    requires IsoShaped(s) && |t| == 24
    requires s[0..4] == t[0..4] && s[5..7] == t[5..7] && s[8..10] == t[8..10] && s[11..13] == t[11..13]
    requires s[14..16] == t[14..16] && s[17..19] == t[17..19] && s[20..23] == t[20..23]
    requires t[4] == '-' == t[7] && t[10] == 'T' && t[13] == ':' == t[16] && t[19] == '.' && t[23] == 'Z'
    ensures s == t
  {
    forall i | 0 <= i < 24
      ensures s[i] == t[i]
    {
      assert i < 4 ==> s[i] == s[0..4][i] && t[i] == t[0..4][i];
      assert 5 <= i < 7 ==> s[i] == s[5..7][i - 5] && t[i] == t[5..7][i - 5];
      assert 8 <= i < 10 ==> s[i] == s[8..10][i - 8] && t[i] == t[8..10][i - 8];
      assert 11 <= i < 13 ==> s[i] == s[11..13][i - 11] && t[i] == t[11..13][i - 11];
      assert 14 <= i < 16 ==> s[i] == s[14..16][i - 14] && t[i] == t[14..16][i - 14];
      assert 17 <= i < 19 ==> s[i] == s[17..19][i - 17] && t[i] == t[17..19][i - 17];
      assert 20 <= i < 23 ==> s[i] == s[20..23][i - 20] && t[i] == t[20..23][i - 20];
    }
  }

  lemma DayTextOfCanonical(s: string)
    requires Canonical(s)
    ensures Millis(ClockIn(s)) < MS_PER_DAY && DayText(DayNumber(DateIn(s)), Millis(ClockIn(s))) == s
  {
    ClockUnique(ClockIn(s));
    CivilUnique(DateIn(s));
    TextOfNumbers(s);
  }

  lemma DaySplit(day: int, rest: nat, t: int)
    requires rest < MS_PER_DAY && t == day * MS_PER_DAY + rest
    ensures t / MS_PER_DAY == day && t % MS_PER_DAY == rest
  {
    QuotientUnique(day, rest, t / MS_PER_DAY, t % MS_PER_DAY, MS_PER_DAY);
  }

  lemma TextOfDay(day: int, rest: nat, t: int)
    requires rest < MS_PER_DAY && t == day * MS_PER_DAY + rest
    ensures Text(t) == DayText(day, rest)
  {
    DaySplit(day, rest, t);
  }

  lemma PrintedIsCanonical(s: string, t: int)
    requires IsoShaped(s) && Text(t) == s
    ensures Canonical(s)
  {
    ShapedInCommonYears(t);
    ParseOfText(t, _ => Invalid);
  }

  /** A string of the right shape survives reading and printing exactly when every field is in range, whatever the
      implementation makes of the others. */
  lemma TextOfParse(s: string, outOfRange: string -> Time)
    requires IsoShaped(s)
    ensures Canonical(s) <==> Parse(s, outOfRange).At? && Text(Parse(s, outOfRange).ms) == s
  {
    var p := Parse(s, outOfRange);
    if Canonical(s) {
      DayTextOfCanonical(s);
      TextOfDay(DayNumber(DateIn(s)), Millis(ClockIn(s)), p.ms);
    } else if p.At? && Text(p.ms) == s {
      PrintedIsCanonical(s, p.ms);
    }
  }

  // ---- Anchors ----

  /** The days of each month, as everybody knows them. */
  function DaysIn(month: nat, leap: bool): nat {
    if month == 4 || month == 6 || month == 9 || month == 11 then 30
    else if month == 2 then if leap then 29 else 28
    else 31
  }

  lemma MonthTable(f: Civil)
    ensures LegalDate(f) <==> 1 <= f.month <= 12 && 1 <= f.day <= DaysIn(f.month, Leap(f.year))
  {
  }

  /** Day 0 is the first of January 1970. */
  lemma EpochDay()
    ensures DayNumber(Civil(1970, 1, 1)) == 0 && CivilOf(0) == Civil(1970, 1, 1)
  {
    assert DayFromYear(1970) == 0;
    CivilUnique(Civil(1970, 1, 1));
  }

  /** Each day is followed by the next: the calendar has no gap and no repeat. */
  function Following(f: Civil): Civil {
    if f.day < DaysIn(f.month, Leap(f.year)) then Civil(f.year, f.month, f.day + 1)
    else if f.month < 12 then Civil(f.year, f.month + 1, 1)
    else Civil(f.year + 1, 1, 1)
  }

  lemma FollowingNumber(f: Civil)
    requires LegalDate(f)
    ensures LegalDate(Following(f)) && DayNumber(Following(f)) == DayNumber(f) + 1
  {
    MonthTable(f);
    MonthTable(Following(f));
    if f.day == DaysIn(f.month, Leap(f.year)) && f.month == 12 {
      YearLength(f.year);
    }
  }

  lemma DaysFollow(day: int)
    ensures CivilOf(day + 1) == Following(CivilOf(day))
  {
    var f := CivilOf(day);
    FollowingNumber(f);
    DayOf(Following(f), day + 1);
  }

  lemma NumberOfTwo(a: char, b: char)
    requires IsDigit(a) && IsDigit(b)
    ensures Number([a, b]) == (a as int - '0' as int) * 10 + (b as int - '0' as int)
  {
    assert [a, b][..1] == [a] && [a][..0] == [];
    assert Number([a]) == a as int - '0' as int;
  }

  lemma NumberEndsWith(s: string, c: char)
    requires Digits(s) && IsDigit(c)
    ensures Digits(s + [c]) && Number(s + [c]) == Number(s) * 10 + (c as int - '0' as int)
  {
    assert (s + [c])[..|s|] == s;
  }

  const EPOCH: string := "1970-01-01T00:00:00.000Z"

  /** The text of instant 0. */
  lemma EpochText(t: int)
    requires t == 0
    ensures Text(t) == "1970-01-01T00:00:00.000Z"
  {
    EpochDate();
    EpochClock();
    EpochShape();
    EpochFields(DateIn(EPOCH), ClockIn(EPOCH));
    TextAtZero(EPOCH, DateIn(EPOCH), ClockIn(EPOCH), t);
  }

  lemma TextAtZero(s: string, d: Civil, c: Clock, t: int)
    requires IsoShaped(s) && DateIn(s) == d && ClockIn(s) == c && LegalDate(d) && LegalClock(c)
    requires DayNumber(d) == 0 && Millis(c) == 0 && t == 0
    ensures Text(t) == s
  {
    NoTime(DayNumber(d), Millis(c), t);
    TextOfFields(s, t);
  }

  lemma NoTime(day: int, rest: int, t: int)
    requires day == 0 && rest == 0 && t == 0
    ensures t == day * MS_PER_DAY + rest
  {
  }

  lemma TextOfFields(s: string, t: int)
    requires Canonical(s) && t == DayNumber(DateIn(s)) * MS_PER_DAY + Millis(ClockIn(s))
    ensures Text(t) == s
  {
    DayTextOfCanonical(s);
    TextOfDay(DayNumber(DateIn(s)), Millis(ClockIn(s)), t);
  }

  lemma EpochFields(d: Civil, c: Clock)
    requires d == Civil(1970, 1, 1) && c == Clock(0, 0, 0, 0)
    ensures LegalDate(d) && LegalClock(c) && DayNumber(d) == 0 && Millis(c) == 0
  {
    EpochDay();
  }

  lemma EpochShape()
    ensures IsoShaped(EPOCH)
  {
  }

  lemma EpochDate()
    ensures |EPOCH| == 24 && Digits(EPOCH[0..4]) && Digits(EPOCH[5..7]) && Digits(EPOCH[8..10])
    ensures Number(EPOCH[0..4]) == 1970 && Number(EPOCH[5..7]) == 1 == Number(EPOCH[8..10])
  {
    assert EPOCH[0..4] == "1970" && EPOCH[5..7] == "01" == EPOCH[8..10];
    YearNumber();
    NumberOfTwo('0', '1');
  }

  lemma YearNumber()
    ensures Digits("1970") && Number("1970") == 1970
  {
    NumberOfTwo('1', '9');
    NumberEndsWith("19", '7');
    assert "19" + ['7'] == "197" && "197" + ['0'] == "1970";
    NumberEndsWith("197", '0');
  }

  lemma EpochClock()
    ensures |EPOCH| == 24
    ensures Digits(EPOCH[11..13]) && Digits(EPOCH[14..16]) && Digits(EPOCH[17..19]) && Digits(EPOCH[20..23])
    ensures Number(EPOCH[11..13]) == 0 == Number(EPOCH[14..16]) && Number(EPOCH[17..19]) == 0 == Number(EPOCH[20..23])
  {
    assert EPOCH[11..13] == "00" == EPOCH[14..16] && EPOCH[17..19] == "00" && EPOCH[20..23] == "000";
    NumberOfTwo('0', '0');
    assert "00" + ['0'] == "000";
    NumberEndsWith("00", '0');
  }
}
