// The calendar date of a Unix time (crates/nya-obs/src/resource.rs).
module CivilDate {
  import opened Common

  datatype Date = Date(year: nat, month: nat, day: nat)

  datatype Stamp = Stamp(date: Date, hour: nat, min: nat, sec: nat)

  // ------------------------------------------------------------- closed form

  // The year of a day of the 400-year era, years starting in March.
  function YearOfEra(doe: nat): int {
    (doe - doe / 1460 + doe / 36524 - doe / 146096) / 365
  }

  function YearStart(y: int): int {
    365 * y + y / 4 - y / 100
  }

  // The month, March being 0, and the day before it of the year it starts on.
  function MonthOf(doy: int): int {
    (5 * doy + 2) / 153
  }

  function MonthStart(mp: int): int {
    (153 * mp + 2) / 5
  }

  // ----------------------------------------------------------------- calendar

  predicate Leap(year: int) {
    year % 4 == 0 && (year % 100 != 0 || year % 400 == 0)
  }

  function DaysInMonth(year: int, month: int): nat {
    if month == 2 then (if Leap(year) then 29 else 28)
    else if month == 4 || month == 6 || month == 9 || month == 11 then 30
    else 31
  }

  predicate ValidDate(d: Date) {
    1 <= d.month <= 12 && 1 <= d.day <= DaysInMonth(d.year, d.month)
  }

  function NextDay(d: Date): Date {
    if d.day < DaysInMonth(d.year, d.month) then d.(day := d.day + 1)
    else if d.month < 12 then Date(d.year, d.month + 1, 1)
    else Date(d.year + 1, 1, 1)
  }

  // Day by day from 1 January 1970.
  function Counted(n: nat): Date {
    if n == 0 then Date(1970, 1, 1) else NextDay(Counted(n - 1))
  }

  // ------------------------------------------------- years starting in March

  // Days before March of year y, counted from March of year 0.
  function Before(y: int): int {
    365 * y + y / 4 - y / 100 + y / 400
  }

  function YearLength(y: int): int {
    if Leap(y + 1) then 366 else 365
  }

  lemma NextQuotients(y: int)
    ensures (y + 1) / 4 == y / 4 + if (y + 1) % 4 == 0 then 1 else 0
    ensures (y + 1) / 100 == y / 100 + if (y + 1) % 100 == 0 then 1 else 0
    ensures (y + 1) / 400 == y / 400 + if (y + 1) % 400 == 0 then 1 else 0
  {
  }

  lemma Hundreds(k: int)
    ensures (400 * k) % 100 == 0
    ensures (100 * k) % 4 == 0
  {
  }

  lemma Multiples(y: int)
    ensures y % 400 == 0 ==> y % 100 == 0
    ensures y % 100 == 0 ==> y % 4 == 0
  {
    Hundreds(y / 400);
    Hundreds(y / 100);
  }

  lemma BeforeNext(y: int)
    ensures Before(y + 1) == Before(y) + YearLength(y)
  {
    NextQuotients(y);
    Multiples(y + 1);
  }

  lemma BeforeGrows(x: int, y: int)
    requires x < y
    ensures Before(x) < Before(y)
  {
  }

  predicate InYear(z: int, y: int) {
    Before(y) <= z < Before(y + 1)
  }

  lemma OneYear(z: int, x: int, y: int)
    requires InYear(z, x) && InYear(z, y)
    ensures x == y
  {
    if x + 1 < y {
      BeforeGrows(x + 1, y);
    } else if y + 1 < x {
      BeforeGrows(y + 1, x);
    }
  }

  // A day of the era from its century, four-year group, year and day in it.
  lemma YearFromParts(c: nat, q: nat, r: nat, doy: nat)
    requires c <= 3 && q <= 24 && r <= 3 && doy <= 365
    requires doy == 365 ==> r == 3 && (q < 24 || c == 3)
    ensures YearOfEra(36524 * c + 1461 * q + 365 * r + doy) == 100 * c + 4 * q + r
  {
    var doe := 36524 * c + 1461 * q + 365 * r + doy;
    var e := 24 * c + q + 365 * r + doy;
    assert doe == 1460 * (25 * c + q) + e;
    assert doe / 1460 == 25 * c + q + if e >= 1460 then 1 else 0;
    if doe < 146096 {
      assert doe / 36524 == c;
    }
    var n := doe - doe / 1460 + doe / 36524 - doe / 146096;
    assert n == 365 * (100 * c + 4 * q + r) + doy - if e >= 1460 then 1 else 0;
  }

  lemma Parts(doe: nat) returns (c: nat, q: nat, r: nat, doy: nat)
    requires doe <= 146096
    ensures doe == 36524 * c + 1461 * q + 365 * r + doy
    ensures c <= 3 && q <= 24 && r <= 3 && doy <= 365
    ensures doy == 365 ==> r == 3 && (q < 24 || c == 3)
  {
    c := if doe < 36524 then 0 else if doe < 73048 then 1 else if doe < 109572 then 2 else 3;
    var rem := doe - 36524 * c;
    q := rem / 1461;
    var rem2 := rem - 1461 * q;
    r := if rem2 < 365 then 0 else if rem2 < 730 then 1 else if rem2 < 1095 then 2 else 3;
    doy := rem2 - 365 * r;
  }

  lemma YearOfEraFits(doe: nat)
    requires doe <= 146096
    ensures var y := YearOfEra(doe); 0 <= y <= 399 && InYear(doe, y) && YearStart(y) == Before(y)
  {
    var c, q, r, doy := Parts(doe);
    YearFromParts(c, q, r, doy);
    YearHolds(c, q, r, doy);
  }

  lemma YearHolds(c: nat, q: nat, r: nat, doy: nat)
    requires c <= 3 && q <= 24 && r <= 3 && doy <= 365 && (doy == 365 ==> r == 3 && (q < 24 || c == 3))
    ensures var y := 100 * c + 4 * q + r; InYear(36524 * c + 1461 * q + 365 * r + doy, y) && YearStart(y) == Before(y)
  {
    var y := 100 * c + 4 * q + r;
    PartsYear(c, q, r);
    BeforeNext(y);
    HoldsFrom(Before(y), YearLength(y), y, doy);
  }

  lemma HoldsFrom(start: int, length: int, y: int, doy: nat)
    requires Before(y) == start && Before(y + 1) == start + length && doy < length
    ensures InYear(start + doy, y)
  {
  }

  lemma PartsYear(c: nat, q: nat, r: nat)
    requires c <= 3 && q <= 24 && r <= 3
    ensures var y := 100 * c + 4 * q + r;
            && Before(y) == YearStart(y) == 36524 * c + 1461 * q + 365 * r
            && YearLength(y) == if r == 3 && (q < 24 || c == 3) then 366 else 365
  {
    PartsStart(c, q, r);
    if r == 3 {
      LastOfFour(c, q);
    } else {
      assert (100 * c + 4 * q + r + 1) % 4 == r + 1;
    }
  }

  lemma PartsStart(c: nat, q: nat, r: nat)
    requires c <= 3 && q <= 24 && r <= 3
    ensures var y := 100 * c + 4 * q + r; Before(y) == YearStart(y) == 36524 * c + 1461 * q + 365 * r
  {
    var y := 100 * c + 4 * q + r;
    assert y / 4 == 25 * c + q;
    assert y / 100 == c;
    assert y / 400 == 0;
  }

  lemma LastOfFour(c: nat, q: nat)
    requires c <= 3 && q <= 24
    ensures Leap(100 * c + 4 * q + 4) <==> q < 24 || c == 3
  {
    var y := 100 * c + 4 * q + 4;
    assert y == 4 * (25 * c + q + 1);
    if q == 24 {
      assert y == 100 * (c + 1);
      assert y % 400 == 0 <==> c == 3;
    } else {
      assert y % 100 == 4 * q + 4;
    }
  }

  // ------------------------------------------------------- months of a year

  lemma MonthFits(doy: int)
    requires 0 <= doy <= 365
    ensures var mp := MonthOf(doy); 0 <= mp <= 11 && MonthStart(mp) <= doy && (mp < 11 ==> doy < MonthStart(mp + 1))
  {
  }

  function MonthNumber(mp: int): int {
    if mp < 10 then mp + 3 else mp - 9
  }

  lemma MonthLengths(year: int, mp: int)
    requires 0 <= mp <= 10
    ensures MonthStart(mp + 1) - MonthStart(mp) == DaysInMonth(year, MonthNumber(mp))
    ensures MonthStart(0) == 0 && MonthStart(11) == 337
  {
  }

  lemma EraShift(y: int, era: int)
    ensures Before(y + 400 * era) == Before(y) + 146097 * era
  {
    assert (y + 400 * era) / 4 == y / 4 + 100 * era;
    assert (y + 400 * era) / 100 == y / 100 + 4 * era;
    assert (y + 400 * era) / 400 == y / 400 + era;
  }

  // ------------------------------------------------------------ the function

  // Days from 1 March of year 0 to the Unix epoch.
  const EPOCH: nat := 719468

  lemma EraYear(z: nat)
    ensures var era := z / 146097;
            var doe := z - era * 146097;
            var yoe := YearOfEra(doe);
            && 0 <= yoe <= 399 && 0 <= doe - YearStart(yoe) <= 365
            && InYear(z, yoe + era * 400) && z - Before(yoe + era * 400) == doe - YearStart(yoe)
  {
    var era := z / 146097;
    var doe := z - era * 146097;
    YearOfEraFits(doe);
    EraShift(YearOfEra(doe), era);
    EraShift(YearOfEra(doe) + 1, era);
    BeforeNext(YearOfEra(doe));
  }

  // The date of day `doy` of the year starting in March of year y.
  function DateAt(y: nat, doy: nat): Date
    requires doy <= 365
  {
    MonthFits(doy);
    var mp := MonthOf(doy);
    var m := MonthNumber(mp);
    Date(if m <= 2 then y + 1 else y, m, doy - MonthStart(mp) + 1)
  }

  lemma OneMonth(doy: int, a: int, b: int)
    requires 0 <= a <= 11 && MonthStart(a) <= doy && (a < 11 ==> doy < MonthStart(a + 1))
    requires 0 <= b <= 11 && MonthStart(b) <= doy && (b < 11 ==> doy < MonthStart(b + 1))
    ensures a == b
  {
  }

  // The last day of a March-year is the last of February.
  lemma FebruaryEnds(y: nat)
    ensures YearLength(y) == 337 + DaysInMonth(y + 1, 2)
  {
  }

  // The calendar's next day, inside one March-year or across its end.
  lemma NextInYear(y: nat, doy: nat)
    requires doy + 1 < YearLength(y)
    ensures NextDay(DateAt(y, doy)) == DateAt(y, doy + 1)
  {
    MonthFits(doy);
    MonthFits(doy + 1);
    var mp := MonthOf(doy);
    FebruaryEnds(y);
    if mp < 11 {
      MonthLengths(if MonthNumber(mp) <= 2 then y + 1 else y, mp);
      if doy + 1 == MonthStart(mp + 1) {
        OneMonth(doy + 1, mp + 1, MonthOf(doy + 1));
      } else {
        OneMonth(doy + 1, mp, MonthOf(doy + 1));
      }
    }
  }

  lemma NextAcross(y: nat, doy: nat)
    requires doy + 1 == YearLength(y)
    ensures NextDay(DateAt(y, doy)) == DateAt(y + 1, 0)
  {
    MonthFits(doy);
    FebruaryEnds(y);
    OneMonth(doy, 11, MonthOf(doy));
  }

  lemma DayBefore(z: nat, y: nat)
    requires z > 0 && InYear(z, y)
    ensures z - Before(y) < YearLength(y)
    ensures z > Before(y) ==> InYear(z - 1, y)
    ensures z == Before(y) ==> y > 0 && InYear(z - 1, y - 1) && z - 1 - Before(y - 1) == YearLength(y - 1) - 1
  {
    BeforeNext(y);
    BeforeNext(y - 1);
  }

  lemma FirstDay(y: nat)
    requires InYear(EPOCH, y)
    ensures y == 1969 && EPOCH - Before(y) == 306 && DateAt(1969, 306) == Date(1970, 1, 1)
  {
    assert InYear(EPOCH, 1969);
    OneYear(EPOCH, y, 1969);
  }

  lemma DayAfter(y: nat, doy: nat, d: Date)
    requires doy < YearLength(y) && (doy == 0 ==> y > 0)
    requires d == if doy > 0 then DateAt(y, doy - 1) else DateAt(y - 1, YearLength(y - 1) - 1)
    ensures NextDay(d) == DateAt(y, doy)
  {
    if doy > 0 {
      NextInYear(y, doy - 1);
    } else {
      NextAcross(y - 1, YearLength(y - 1) - 1);
    }
  }

  // Counting day by day arrives at the date the March-year gives.
  lemma {:induction false} CountedAt(n: nat, y: nat, doy: nat)
    requires InYear(n + EPOCH, y) && doy == n + EPOCH - Before(y)
    ensures doy < YearLength(y) && Counted(n) == DateAt(y, doy)
    decreases n
  {
    DayBefore(n + EPOCH, y);
    if n == 0 {
      FirstDay(y);
    } else {
      if doy > 0 {
        CountedAt(n - 1, y, doy - 1);
      } else {
        CountedAt(n - 1, y - 1, YearLength(y - 1) - 1);
      }
      DayAfter(y, doy, Counted(n - 1));
    }
  }

  lemma {:induction false} CountedIsValid(n: nat)
    ensures ValidDate(Counted(n))
  {
    if n > 0 {
      CountedIsValid(n - 1);
    }
  }

  predicate Earlier(a: Date, b: Date) {
    a.year < b.year || (a.year == b.year && (a.month < b.month || (a.month == b.month && a.day < b.day)))
  }

  // Later days have later dates, so no two days share one.
  lemma {:induction false} LaterDayLaterDate(a: nat, b: nat)
    requires a < b
    ensures Earlier(Counted(a), Counted(b))
  {
    CountedIsValid(b - 1);
    if a < b - 1 {
      LaterDayLaterDate(a, b - 1);
    }
  }

  // The day number of a date, from its year and month alone.
  function DayNumber(d: Date): int
    requires ValidDate(d)
  {
    var mp := if d.month >= 3 then d.month - 3 else d.month + 9;
    Before(if d.month >= 3 then d.year else d.year - 1) + MonthStart(mp) + d.day - 1 - EPOCH
  }

  lemma DayNumberAt(y: nat, doy: nat)
    requires doy < YearLength(y) && ValidDate(DateAt(y, doy))
    ensures DayNumber(DateAt(y, doy)) == Before(y) + doy - EPOCH
  {
    MonthFits(doy);
  }

  // -------------------------------------------------------------------- stamps

  function Seconds(s: Stamp): int
    requires ValidDate(s.date)
  {
    DayNumber(s.date) * 86400 + s.hour * 3600 + s.min * 60 + s.sec
  }

  // The year starting in March that holds a day, and the day in it.
  method MarchYear(z: nat) returns (y: nat, doy: nat)
    ensures InYear(z, y) && doy == z - Before(y) && doy <= 365
  {
    EraYear(z);
    var era := z / 146097;
    var doe := z - era * 146097;
    var yoe := (doe - doe / 1460 + doe / 36524 - doe / 146096) / 365;
    assert yoe == YearOfEra(doe);
    y := yoe + era * 400;
    doy := doe - (365 * yoe + yoe / 4 - yoe / 100);
  }

  method DateInYear(y0: nat, doy: nat) returns (date: Date)
    requires doy <= 365
    ensures date == DateAt(y0, doy)
  {
    MonthFits(doy);
    var y := y0;
    var mp := (5 * doy + 2) / 153;
    var d: nat := doy - (153 * mp + 2) / 5 + 1;
    var m: nat := if mp < 10 then mp + 3 else mp - 9;
    if m <= 2 {
      y := y + 1;
    }
    date := Date(y, m, d);
  }

  // The date of a day number, computed in closed form: it is the calendar's,
  // and gives the day number back.
  method CivilFromDays(days: nat) returns (date: Date)
    ensures date == Counted(days) && ValidDate(date) && DayNumber(date) == days
  {
    var y, doy := MarchYear(days + EPOCH);
    CountedAt(days, y, doy);
    CountedIsValid(days);
    DayNumberAt(y, doy);
    date := DateInYear(y, doy);
  }

  // ------------------------------------------------------------------ printing

  function Digit(n: nat): char
    requires n < 10
  {
    ('0' as int + n) as char
  }

  // Decimal digits, filled up with zeros to a width.
  function Pad(n: nat, width: nat): (r: string)
    ensures |r| >= width && forall i :: 0 <= i < |r| ==> '0' <= r[i] <= '9'
    decreases width, n
  {
    if n == 0 && width == 0 then ""
    else Pad(n / 10, if width == 0 then 0 else width - 1) + [Digit(n % 10)]
  }

  // The number a string of digits stands for.
  function Value(s: string): nat {
    if s == "" then 0 else 10 * Value(s[..|s| - 1]) + SatDigit(s[|s| - 1])
  }

  function SatDigit(c: char): nat {
    if '0' <= c <= '9' then c as int - '0' as int else 0
  }

  lemma ValueAppend(s: string, n: nat)
    requires n < 10
    ensures Value(s + [Digit(n)]) == 10 * Value(s) + n
  {
    assert (s + [Digit(n)])[..|s|] == s;
  }

  lemma {:induction false} ValueOfPad(n: nat, width: nat)
    ensures Value(Pad(n, width)) == n
    decreases width, n
  {
    if n != 0 || width != 0 {
      var w := if width == 0 then 0 else width - 1;
      ValueOfPad(n / 10, w);
      ValueAppend(Pad(n / 10, w), n % 10);
    }
  }

  lemma {:induction false} PadFits(n: nat, width: nat)
    requires n < Power10(width)
    ensures |Pad(n, width)| == width
  {
    if width > 0 {
      PadFits(n / 10, width - 1);
    }
  }

  function Power10(n: nat): nat {
    if n == 0 then 1 else 10 * Power10(n - 1)
  }

  // Year to second, run together, with T before the time and Z behind it.
  function Print(s: Stamp): string {
    Pad(s.date.year, 4) + (Pad(s.date.month, 2) + (Pad(s.date.day, 2) +
      ("T" + (Pad(s.hour, 2) + (Pad(s.min, 2) + (Pad(s.sec, 2) + "Z"))))))
  }

  function Two(n: nat): string
    requires n < 100
  {
    [Digit(n / 10), Digit(n % 10)]
  }

  lemma PadTwo(n: nat)
    requires n < 100
    ensures Pad(n, 2) == Two(n)
  {
    assert Pad(n, 2) == Pad(n / 10, 1) + [Digit(n % 10)];
    assert Pad(n / 10, 1) == Pad(0, 0) + [Digit(n / 10)];
  }

  lemma PadFour(n: nat)
    requires n < 10000
    ensures n / 10 / 10 < 100 && Pad(n, 4) == Two(n / 10 / 10) + [Digit(n / 10 % 10), Digit(n % 10)]
  {
    assert Pad(n, 4) == Pad(n / 10, 3) + [Digit(n % 10)];
    assert Pad(n / 10, 3) == Pad(n / 10 / 10, 2) + [Digit(n / 10 % 10)];
    PadTwo(n / 10 / 10);
  }

  // As the stamp reads up to the year 9999: four digits of the year, two of
  // everything else, T before the time and Z at the end.
  lemma PrintedForm(s: Stamp)
    requires s.date.year < 10000 && 0 <= s.date.month < 100 && 0 <= s.date.day < 100 && s.hour < 100 && s.min < 100 && s.sec < 100
    ensures var y := s.date.year;
            Print(s) == Two(y / 10 / 10) + [Digit(y / 10 % 10), Digit(y % 10)] + Two(s.date.month) + Two(s.date.day) + "T" +
                        Two(s.hour) + Two(s.min) + Two(s.sec) + "Z"
  {
    PadFour(s.date.year);
    PadTwo(s.date.month);
    PadTwo(s.date.day);
    PadTwo(s.hour);
    PadTwo(s.min);
    PadTwo(s.sec);
  }

  lemma DigitIs(n: nat)
    requires n < 10
    ensures Digit(n) == "0123456789"[n]
  {
  }

  datatype Cut = Cut(year: string, month: string, day: string, hour: string, min: string, sec: string)

  // Cuts the fields from the right: all but the year have two digits.
  function Fields(t: string): Option<Cut> {
    var n := |t|;
    if n < 12 || t[n - 1] != 'Z' || t[n - 8] != 'T' then None
    else Some(Cut(t[..n - 12], t[n - 12..n - 10], t[n - 10..n - 8], t[n - 7..n - 5], t[n - 5..n - 3], t[n - 3..n - 1]))
  }

  function Read(c: Cut): Stamp {
    Stamp(Date(Value(c.year), Value(c.month), Value(c.day)), Value(c.hour), Value(c.min), Value(c.sec))
  }

  // Reads them back.
  function Scan(t: string): Option<Stamp> {
    match Fields(t)
    case None => None
    case Some(c) => Some(Read(c))
  }

  lemma TwoDigits(n: nat)
    requires n < 100
    ensures |Pad(n, 2)| == 2 && Value(Pad(n, 2)) == n
  {
    assert Power10(2) == 10 * Power10(1);
    PadFits(n, 2);
    ValueOfPad(n, 2);
  }

  lemma Sliced(y: string, m: string, d: string, h: string, i: string, s: string)
    requires |m| == |d| == |h| == |i| == |s| == 2
    ensures var t := y + (m + (d + ("T" + (h + (i + (s + "Z"))))));
            var n := |t|;
            && n == |y| + 12 && t[n - 1] == 'Z' && t[n - 8] == 'T'
            && t[..n - 12] == y && t[n - 12..n - 10] == m && t[n - 10..n - 8] == d
            && t[n - 7..n - 5] == h && t[n - 5..n - 3] == i && t[n - 3..n - 1] == s
  {
  }

  lemma FieldsJoined(c: Cut)
    requires |c.month| == |c.day| == |c.hour| == |c.min| == |c.sec| == 2
    ensures Fields(c.year + (c.month + (c.day + ("T" + (c.hour + (c.min + (c.sec + "Z"))))))) == Some(c)
  {
    Sliced(c.year, c.month, c.day, c.hour, c.min, c.sec);
  }

  lemma ReadPads(s: Stamp)
    requires s.date.month < 100 && s.date.day < 100 && s.hour < 100 && s.min < 100 && s.sec < 100
    ensures Read(Cut(Pad(s.date.year, 4), Pad(s.date.month, 2), Pad(s.date.day, 2), Pad(s.hour, 2), Pad(s.min, 2), Pad(s.sec, 2))) == s
  {
    ValueOfPad(s.date.year, 4);
    ValueOfPad(s.date.month, 2);
    ValueOfPad(s.date.day, 2);
    ValueOfPad(s.hour, 2);
    ValueOfPad(s.min, 2);
    ValueOfPad(s.sec, 2);
  }

  lemma FieldsPrinted(s: Stamp)
    requires s.date.month < 100 && s.date.day < 100 && s.hour < 100 && s.min < 100 && s.sec < 100
    ensures Fields(Print(s)) ==
            Some(Cut(Pad(s.date.year, 4), Pad(s.date.month, 2), Pad(s.date.day, 2), Pad(s.hour, 2), Pad(s.min, 2), Pad(s.sec, 2)))
  {
    TwoDigits(s.date.month);
    TwoDigits(s.date.day);
    TwoDigits(s.hour);
    TwoDigits(s.min);
    TwoDigits(s.sec);
    FieldsJoined(Cut(Pad(s.date.year, 4), Pad(s.date.month, 2), Pad(s.date.day, 2), Pad(s.hour, 2), Pad(s.min, 2), Pad(s.sec, 2)));
  }

  lemma ScanPrint(s: Stamp)
    requires s.date.month < 100 && s.date.day < 100 && s.hour < 100 && s.min < 100 && s.sec < 100
    ensures Scan(Print(s)) == Some(s)
  {
    FieldsPrinted(s);
    ReadPads(s);
  }

  method FieldsOf(secs: nat) returns (s: Stamp)
    ensures s.date == Counted(secs / 86400) && ValidDate(s.date)
    ensures s.hour < 24 && s.min < 60 && s.sec < 60
    ensures Seconds(s) == secs
  {
    var tod := secs % 86400;
    var date := CivilFromDays(secs / 86400);
    s := Stamp(date, tod / 3600, tod % 3600 / 60, tod % 60);
  }

  // What is printed for a Unix time reads back as the date counted day by day
  // and a valid time of day, which together give the time; sixteen characters
  // up to the year 9999.
  method UtcCompact(secs: nat) returns (t: string)
    ensures Scan(t).Some?
    ensures var s := Scan(t).value;
            && t == Print(s)
            && s.date == Counted(secs / 86400) && ValidDate(s.date)
            && s.hour < 24 && s.min < 60 && s.sec < 60
            && Seconds(s) == secs
            && (s.date.year <= 9999 ==> |t| == 16)
  {
    var s := FieldsOf(secs);
    ScanPrint(s);
    t := Print(s);
    if s.date.year <= 9999 {
      PrintLength(s);
    }
  }

  lemma PrintLength(s: Stamp)
    requires s.date.year <= 9999 && s.date.month < 100 && s.date.day < 100 && s.hour < 100 && s.min < 100 && s.sec < 100
    ensures |Print(s)| == 16
  {
    assert Power10(4) == 10 * Power10(3) && Power10(3) == 10 * Power10(2);
    assert Power10(2) == 10 * Power10(1);
    PadFits(s.date.year, 4);
    TwoDigits(s.date.month);
    TwoDigits(s.date.day);
    TwoDigits(s.hour);
    TwoDigits(s.min);
    TwoDigits(s.sec);
  }
}
