/**
 From days since 1970-01-01 to the Gregorian calendar by nested divisions, and
 the timestamps written with it.
 */
module Calendar {
  import opened Results
  import opened Numbers
  import opened NodeConfig

  datatype Date = Date(year: int, month: int, day: int)

  // ---------------- the calendar, by counting ---------------------------

  /** Leap years as in appendix C of RFC 3339. */
  predicate IsLeap(year: int) {
    year % 4 == 0 && (year % 100 != 0 || year % 400 == 0)
  }

  function MonthLength(year: int, month: int): nat {
    if month == 2 then (if IsLeap(year) then 29 else 28)
    else if month == 4 || month == 6 || month == 9 || month == 11 then 30
    else 31
  }

  predicate Valid(d: Date) {
    1 <= d.month <= 12 && 1 <= d.day <= MonthLength(d.year, d.month)
  }

  function Tomorrow(d: Date): Date {
    if d.day < MonthLength(d.year, d.month) then d.(day := d.day + 1)
    else if d.month < 12 then Date(d.year, d.month + 1, 1)
    else Date(d.year + 1, 1, 1)
  }

  const EPOCH := Date(1970, 1, 1)

  /** The date `n` days after the epoch, one day at a time. */
  function Counted(n: nat): Date {
    if n == 0 then EPOCH else Tomorrow(Counted(n - 1))
  }

  predicate Before(a: Date, b: Date) {
    || a.year < b.year
    || (a.year == b.year && (a.month < b.month || (a.month == b.month && a.day < b.day)))
  }

  // ---------------- the calendar, by dividing ---------------------------

  /** `days_to_ymd`: years run from March, 400 of them to an era. */
  function DaysToYmd(days: u32): Date {
    var z := days + 719_468;
    var era := z / 146_097;
    var doe := z - era * 146_097;
    var yoe := YearOfEra(doe);
    var y := yoe + era * 400;
    var doy := doe - (365 * yoe + yoe / 4 - yoe / 100);
    FromMarch(y, doy)
  }

  function YearOfEra(doe: int): int {
    (doe - doe / 1460 + doe / 36_524 - doe / 146_096) / 365
  }

  /** Day `doy`, counted from 0, of the year that starts in March of `y`. */
  function FromMarch(y: int, doy: int): Date {
    var mp := (5 * doy + 2) / 153;
    var d := doy - (153 * mp + 2) / 5 + 1;
    var m := if mp < 10 then mp + 3 else mp - 9;
    Date(if m <= 2 then y + 1 else y, m, d)
  }

  // ---------------- one day on is the next date -------------------------

  /** Day `r` of year `a` of 4-year cycle `q` of century `c` of an era; years run from March. */
  datatype Parts = Parts(era: int, c: int, q: int, a: int, r: int) {
    predicate Exists() {
      0 <= c < 4 && 0 <= q < 25 && 0 <= a < 4 && 0 <= r < YearLength()
    }

    /** A leap day ends each cycle but a century's last, and each era. */
    function YearLength(): int {
      if a == 3 && (q < 24 || c == 3) then 366 else 365
    }

    function Year(): int {
      400 * era + 100 * c + 4 * q + a
    }

    function DayOfEra(): int {
      36_524 * c + 1461 * q + 365 * a + r
    }

    function Next(): Parts {
      if r + 1 < YearLength() then this.(r := r + 1)
      else if a < 3 then this.(a := a + 1, r := 0)
      else if q < 24 then this.(q := q + 1, a := 0, r := 0)
      else if c < 3 then Parts(era, c + 1, 0, 0, 0)
      else Parts(era + 1, 0, 0, 0, 0)
    }
  }

  function PartsOf(days: nat): Parts {
    var z := days + 719_468;
    var doe := z % 146_097;
    var c := if doe == 146_096 then 3 else doe / 36_524;
    var left := doe - 36_524 * c;
    var q := left / 1461;
    var inCycle := left - 1461 * q;
    var a := if inCycle == 1460 then 3 else inCycle / 365;
    Parts(z / 146_097, c, q, a, inCycle - 365 * a)
  }

  lemma PartsOfExist(days: nat)
    ensures PartsOf(days).Exists()
    ensures days + 719_468 == 146_097 * PartsOf(days).era + PartsOf(days).DayOfEra()
  {
  }

  lemma NextPartsExist(p: Parts)
    requires p.Exists()
    ensures p.Next().Exists()
    ensures 146_097 * p.Next().era + p.Next().DayOfEra() == 146_097 * p.era + p.DayOfEra() + 1
  {
  }

  lemma NextPartsYear(p: Parts)
    requires p.Exists()
    ensures if p.r + 1 < p.YearLength() then p.Next().Year() == p.Year() && p.Next().r == p.r + 1
            else p.Next().Year() == p.Year() + 1 && p.Next().r == 0
  {
  }

  /** The nested quotients find the year a day of an era falls in. */
  lemma YearOfEraIs(p: Parts)
    requires p.Exists()
    ensures 0 <= p.DayOfEra() < 146_097
    ensures YearOfEra(p.DayOfEra()) == 100 * p.c + 4 * p.q + p.a
  {
    var doe := p.DayOfEra();
    var rest := 24 * p.c + p.q + 365 * p.a + p.r;
    assert doe == 1460 * (25 * p.c + p.q) + rest;
    assert doe / 1460 == 25 * p.c + p.q + (if rest >= 1460 then 1 else 0);
    var left := 1461 * p.q + 365 * p.a + p.r;
    assert doe == 36_524 * p.c + left;
    assert doe / 36_524 == p.c + (if left >= 36_524 then 1 else 0);
  }

  /** A year that starts in March has a leap day at its end when the next calendar year has one. */
  lemma MarchYearLength(p: Parts)
    requires p.Exists()
    ensures p.YearLength() == if IsLeap(p.Year() + 1) then 366 else 365
  {
    var next := p.Year() + 1;
    var k := 100 * p.era + 25 * p.c + p.q;
    if p.a < 3 {
      Remainder4(next, k, p.a + 1);
    } else {
      Remainder4(next, k + 1, 0);
      if p.q < 24 {
        Remainder100(next, 4 * p.era + p.c, 4 * (p.q + 1));
      } else {
        Remainder100(next, 4 * p.era + p.c + 1, 0);
        Remainder400(next, p.era + (if p.c == 3 then 1 else 0), if p.c == 3 then 0 else 100 * (p.c + 1));
      }
    }
  }

  lemma Remainder4(x: int, k: int, r: int)
    requires x == 4 * k + r && 0 <= r < 4
    ensures x % 4 == r
  {
  }

  lemma Remainder100(x: int, k: int, r: int)
    requires x == 100 * k + r && 0 <= r < 100
    ensures x % 100 == r
  {
  }

  lemma Remainder400(x: int, k: int, r: int)
    requires x == 400 * k + r && 0 <= r < 400
    ensures x % 400 == r
  {
  }

  lemma NextMarchDay(y: int, doy: int)
    requires 0 <= doy && doy + 1 < if IsLeap(y + 1) then 366 else 365
    ensures FromMarch(y, doy + 1) == Tomorrow(FromMarch(y, doy))
  {
    var mp := (5 * doy + 2) / 153;
    assert 0 <= mp <= 11;
  }

  lemma LastMarchDay(y: int)
    ensures FromMarch(y + 1, 0) == Tomorrow(FromMarch(y, if IsLeap(y + 1) then 365 else 364))
  {
  }

  /** The divisions in `DaysToYmd` recover the parts a day number is made of. */
  lemma DividedAs(days: u32, p: Parts)
    requires p.Exists() && days + 719_468 == 146_097 * p.era + p.DayOfEra()
    ensures DaysToYmd(days) == FromMarch(p.Year(), p.r)
  {
    hide FromMarch, YearOfEra;
    YearOfEraIs(p);
    assert (days + 719_468) / 146_097 == p.era;
    var yoe := 100 * p.c + 4 * p.q + p.a;
    assert 365 * yoe + yoe / 4 - yoe / 100 == 36_524 * p.c + 1461 * p.q + 365 * p.a by {
      assert yoe / 4 == 25 * p.c + p.q;
      assert yoe / 100 == p.c;
    }
  }

  lemma OneDayOn(days: u32)
    requires days + 1 < 0x1_0000_0000
    ensures DaysToYmd(days + 1) == Tomorrow(DaysToYmd(days))
  {
    hide FromMarch, DaysToYmd, Tomorrow, IsLeap, PartsOf;
    var p := PartsOf(days);
    PartsOfExist(days);
    NextPartsExist(p);
    NextPartsYear(p);
    DividedAs(days, p);
    DividedAs(days + 1, p.Next());
    MarchYearLength(p);
    if p.r + 1 < p.YearLength() {
      NextMarchDay(p.Year(), p.r);
    } else {
      LastMarchDay(p.Year());
    }
  }

  lemma TomorrowIsLater(d: Date)
    requires Valid(d)
    ensures Valid(Tomorrow(d)) && Before(d, Tomorrow(d))
  {
  }

  /**
   For every day count the divisions give the date reached by counting days
   from 1970-01-01 under the Gregorian rules, and it is a date that exists.
   */
  lemma {:induction false} DaysToYmdCounts(days: u32)
    ensures DaysToYmd(days) == Counted(days)
    ensures Valid(DaysToYmd(days)) && DaysToYmd(days).year >= 1970
  {
    hide DaysToYmd, Tomorrow;
    if days == 0 {
      DividedAs(0, Parts(4, 3, 17, 1, 306));
    } else {
      DaysToYmdCounts(days - 1);
      OneDayOn(days - 1);
      TomorrowIsLater(Counted(days - 1));
    }
  }

  // ---------------- from dates back to days -----------------------------

  /** Days from the epoch to the first of January of `year`. */
  function YearsBefore(year: int): nat
    requires year >= 1970
    decreases year
  {
    if year == 1970 then 0 else YearsBefore(year - 1) + if IsLeap(year - 1) then 366 else 365
  }

  /** Days of `year` before the first of `month`. */
  function MonthsBefore(year: int, month: int): nat
    requires 1 <= month <= 13
    decreases month
  {
    if month == 1 then 0 else MonthsBefore(year, month - 1) + MonthLength(year, month - 1)
  }

  function DayNumber(d: Date): nat
    requires Valid(d) && d.year >= 1970
  {
    YearsBefore(d.year) + MonthsBefore(d.year, d.month) + d.day - 1
  }

  lemma TwelveMonths(year: int)
    ensures MonthsBefore(year, 13) == if IsLeap(year) then 366 else 365
  {
    hide IsLeap;
    assert MonthsBefore(year, 4) == MonthLength(year, 1) + MonthLength(year, 2) + MonthLength(year, 3);
    assert MonthsBefore(year, 7) == MonthsBefore(year, 4) + 91;
    assert MonthsBefore(year, 10) == MonthsBefore(year, 7) + 92;
    assert MonthsBefore(year, 13) == MonthsBefore(year, 10) + 92;
  }

  lemma TomorrowCountsOne(d: Date)
    requires Valid(d) && d.year >= 1970
    ensures Valid(Tomorrow(d)) && DayNumber(Tomorrow(d)) == DayNumber(d) + 1
  {
    hide IsLeap;
    TwelveMonths(d.year);
  }

  lemma {:induction false} MonthsInOrder(year: int, m: int, n: int)
    requires 1 <= m < n <= 13
    ensures MonthsBefore(year, m) + MonthLength(year, m) <= MonthsBefore(year, n)
  {
    hide MonthLength;
    if m < n - 1 {
      MonthsInOrder(year, m, n - 1);
    }
  }

  lemma {:induction false} YearsInOrder(y: int, z: int)
    requires 1970 <= y < z
    ensures YearsBefore(y) + MonthsBefore(y, 13) <= YearsBefore(z)
    decreases z
  {
    hide MonthsBefore, IsLeap;
    TwelveMonths(y);
    if y < z - 1 {
      YearsInOrder(y, z - 1);
    }
  }

  /** Later dates have larger day numbers. */
  lemma DayNumbersInOrder(a: Date, b: Date)
    requires Valid(a) && Valid(b) && a.year >= 1970 && Before(a, b)
    ensures DayNumber(a) < DayNumber(b)
  {
    hide MonthsBefore, YearsBefore, MonthLength;
    if a.year < b.year {
      MonthsInOrder(a.year, a.month, 13);
      YearsInOrder(a.year, b.year);
    } else if a.month < b.month {
      MonthsInOrder(a.year, a.month, b.month);
    }
  }

  lemma {:induction false} CountedNumber(n: nat)
    ensures Valid(Counted(n)) && Counted(n).year >= 1970 && DayNumber(Counted(n)) == n
  {
    hide Tomorrow;
    if n != 0 {
      CountedNumber(n - 1);
      TomorrowCountsOne(Counted(n - 1));
      TomorrowIsLater(Counted(n - 1));
    }
  }

  /** Days to date, date to days: each undoes the other, on every date from the epoch on. */
  lemma DaysAndDates(days: u32, d: Date)
    ensures Valid(DaysToYmd(days)) && DaysToYmd(days).year >= 1970 && DayNumber(DaysToYmd(days)) == days
    ensures Valid(d) && d.year >= 1970 && DayNumber(d) < 0x1_0000_0000 ==> DaysToYmd(DayNumber(d)) == d
  {
    hide DaysToYmd, DayNumber, Counted;
    DaysToYmdCounts(days);
    CountedNumber(days);
    if Valid(d) && d.year >= 1970 && DayNumber(d) < 0x1_0000_0000 {
      var n := DayNumber(d);
      DaysToYmdCounts(n);
      CountedNumber(n);
      if Before(d, DaysToYmd(n)) {
        DayNumbersInOrder(d, DaysToYmd(n));
      } else if Before(DaysToYmd(n), d) {
        DayNumbersInOrder(DaysToYmd(n), d);
      }
    }
  }

  /** The order of days is the order of dates; in particular no two days share a date. */
  lemma DatesInOrder(m: u32, n: u32)
    ensures m < n <==> Before(DaysToYmd(m), DaysToYmd(n))
  {
    hide DaysToYmd, DayNumber, Valid;
    var a, b := DaysToYmd(m), DaysToYmd(n);
    DaysAndDates(m, a);
    DaysAndDates(n, b);
    if Before(a, b) {
      DayNumbersInOrder(a, b);
    } else if Before(b, a) {
      DayNumbersInOrder(b, a);
    }
  }

  // ---------------- timestamps ------------------------------------------

  type i64 = n: int | -0x8000_0000_0000_0000 <= n < 0x8000_0000_0000_0000

  function Zeros(k: nat): string {
    if k == 0 then "" else "0" + Zeros(k - 1)
  }

  /** Rust's `{:0width}` for a value that is not negative. */
  function ZeroPadded(n: nat, width: nat): string {
    var digits := NatText(n);
    Zeros(if |digits| < width then width - |digits| else 0) + digits
  }

  /** A number and the character that ends it. */
  datatype Field = Field(value: nat, width: nat, mark: char)

  function Written(fields: seq<Field>): string {
    if fields == [] then ""
    else ZeroPadded(fields[0].value, fields[0].width) + [fields[0].mark] + Written(fields[1..])
  }

  /** Date and time of day, most significant first. */
  function FieldsOf(secs: nat): seq<Field> {
    var date := DaysToYmd(secs / 86_400 % 0x1_0000_0000);
    var sod := secs % 86_400;
    DaysAndDates(secs / 86_400 % 0x1_0000_0000, EPOCH);
    [Field(date.year, 4, '-'), Field(date.month, 2, '-'), Field(date.day, 2, 'T'),
     Field(sod / 3600, 2, ':'), Field(sod % 3600 / 60, 2, ':'), Field(sod % 60, 2, 'Z')]
  }

  function FormatUtcIso8601(unixSecs: i64): string {
    Written(FieldsOf(if unixSecs < 0 then 0 else unixSecs))
  }

  // ---------------- timestamps read as RFC 3339 says --------------------

  /** Fixed numbers of digits, each run ended by its mark, and nothing behind the last. */
  function ReadFields(text: string, shape: seq<(nat, char)>): Option<seq<nat>>
    decreases |shape|
  {
    if shape == [] then if text == "" then Some([]) else None
    else
      var (width, mark) := shape[0];
      if |text| > width && AllDigits(text[..width]) && text[width] == mark then
        match ReadFields(text[width + 1..], shape[1..])
        case Some(rest) => Some([NatOf(text[..width])] + rest)
        case None => None
      else None
  }

  /** `date-time` of section 5.6, with `Z` for the offset and no fraction. */
  const RFC3339: seq<(nat, char)> := [(4, '-'), (2, '-'), (2, 'T'), (2, ':'), (2, ':'), (2, 'Z')]

  /** The seconds since the epoch that a timestamp names, if it names any. */
  function ReadTimestamp(text: string): Option<nat> {
    match ReadFields(text, RFC3339)
    case None => None
    case Some(v) =>
      if |v| != 6 then None
      else
        var date := Date(v[0], v[1], v[2]);
        if Valid(date) && date.year >= 1970 && v[3] < 24 && v[4] < 60 && v[5] < 60 then
          Some(DayNumber(date) * 86_400 + v[3] * 3600 + v[4] * 60 + v[5])
        else None
  }

  function Pow10(n: nat): nat {
    if n == 0 then 1 else 10 * Pow10(n - 1)
  }

  lemma {:induction false} NatTextLength(n: nat, width: nat)
    requires width > 0 && n < Pow10(width)
    ensures |NatText(n)| <= width
  {
    if n >= 10 {
      assert width > 1 by {
        assert Pow10(1) == 10;
      }
      NatTextLength(n / 10, width - 1);
    }
  }

  lemma {:induction false} LeadingZeros(k: nat, digits: string)
    requires AllDigits(digits)
    ensures |Zeros(k)| == k && AllDigits(Zeros(k) + digits)
    ensures NatOf(Zeros(k) + digits) == NatOf(digits)
    decreases k, |digits|
  {
    var s := Zeros(k) + digits;
    if digits != "" {
      LeadingZeros(k, digits[..|digits| - 1]);
      assert s[..|s| - 1] == Zeros(k) + digits[..|digits| - 1];
    } else if k > 0 {
      LeadingZeros(k - 1, "");
      assert s == Zeros(k);
      AllZeros(k);
    }
  }

  lemma {:induction false} AllZeros(k: nat)
    ensures |Zeros(k)| == k && AllDigits(Zeros(k)) && NatOf(Zeros(k)) == 0
    ensures k > 0 ==> Zeros(k)[..k - 1] == Zeros(k - 1) && Zeros(k)[k - 1] == '0'
  {
    if k > 0 {
      AllZeros(k - 1);
      if k > 1 {
        assert Zeros(k)[..k - 1] == "0" + Zeros(k - 1)[..k - 2];
      }
    }
  }

  /** A value that fits its width fills it exactly, and reads back as itself. */
  lemma PaddedFits(n: nat, width: nat)
    requires width > 0 && n < Pow10(width)
    ensures var s := ZeroPadded(n, width);
            |s| == width && AllDigits(s) && NatOf(s) == n
  {
    NatTextLength(n, width);
    LeadingZeros(width - |NatText(n)|, NatText(n));
    NatRoundTrip(n);
  }

  predicate Fits(f: Field) {
    f.width > 0 && f.value < Pow10(f.width)
  }

  function Shape(fields: seq<Field>): seq<(nat, char)> {
    seq(|fields|, i requires 0 <= i < |fields| => (fields[i].width, fields[i].mark))
  }

  function Values(fields: seq<Field>): seq<nat> {
    seq(|fields|, i requires 0 <= i < |fields| => fields[i].value)
  }

  function Total(shape: seq<(nat, char)>): nat {
    if shape == [] then 0 else shape[0].0 + 1 + Total(shape[1..])
  }

  lemma {:induction false} WrittenReads(fields: seq<Field>)
    requires forall i | 0 <= i < |fields| :: Fits(fields[i])
    ensures ReadFields(Written(fields), Shape(fields)) == Some(Values(fields))
    ensures |Written(fields)| == Total(Shape(fields))
  {
    hide ZeroPadded, NatOf, Pow10;
    if fields != [] {
      var f, rest := fields[0], fields[1..];
      var head := ZeroPadded(f.value, f.width);
      PaddedFits(f.value, f.width);
      WrittenReads(rest);
      assert Shape(fields)[1..] == Shape(rest);
      var text := Written(fields);
      assert text[..f.width] == head;
      assert text[f.width + 1..] == Written(rest);
      assert Values(fields) == [f.value] + Values(rest);
    }
  }

  /** Just before the year 10000. */
  const YEAR_10000: nat := 253_402_300_800

  lemma FieldsFit(secs: nat)
    requires secs < YEAR_10000
    ensures forall i | 0 <= i < 6 :: Fits(FieldsOf(secs)[i])
    ensures Shape(FieldsOf(secs)) == RFC3339
  {
    hide DaysToYmd, DayNumber;
    var days := secs / 86_400;
    DaysAndDates(days, EPOCH);
    LastDay();
    DatesInOrder(2_932_896, days);
    assert Pow10(2) == 100 by {
      assert Pow10(1) == 10;
    }
    assert Pow10(4) == 10_000 by {
      assert Pow10(3) == 1000;
    }
  }

  lemma LastDay()
    ensures DaysToYmd(2_932_896) == Date(9999, 12, 31)
  {
    hide DaysToYmd;
    DividedAs(2_932_896, Parts(24, 3, 24, 3, 305));
  }

  lemma FieldValues(secs: nat)
    requires secs < YEAR_10000
    ensures var date, sod := DaysToYmd(secs / 86_400), secs % 86_400;
            Valid(date) && date.year >= 1970 &&
            Values(FieldsOf(secs)) == [date.year, date.month, date.day, sod / 3600, sod % 3600 / 60, sod % 60]
  {
    hide DaysToYmd, DayNumber;
    DaysAndDates(secs / 86_400, EPOCH);
    hide Valid;
  }

  lemma Remainder60(x: int, k: int, r: int)
    requires x == 60 * k + r && 0 <= r < 60
    ensures x % 60 == r
  {
  }

  lemma MinuteOfHour(s: nat)
    ensures s % 3600 == 60 * (s % 3600 / 60) + s % 60
  {
    var hour, rest := s / 3600, s % 3600;
    var minute, second := rest / 60, rest % 60;
    assert s == 3600 * hour + rest && rest == 60 * minute + second;
    Remainder60(s, 60 * hour + minute, second);
  }

  lemma TimeOfDay(sod: nat)
    requires sod < 86_400
    ensures sod / 3600 < 24 && sod % 3600 / 60 < 60
    ensures sod / 3600 * 3600 + sod % 3600 / 60 * 60 + sod % 60 == sod
  {
    MinuteOfHour(sod);
  }

  /**
   A timestamp is what RFC 3339 asks for: it has exactly 20 characters, and
   read by the grammar of section 5.6 it names the second it was made from.
   Times before the epoch are written as the epoch.
   */
  lemma TimestampReads(unixSecs: i64)
    requires unixSecs < YEAR_10000
    ensures |FormatUtcIso8601(unixSecs)| == 20
    ensures ReadTimestamp(FormatUtcIso8601(unixSecs)) == Some(if unixSecs < 0 then 0 else unixSecs)
  {
    hide DaysToYmd, DayNumber, ReadFields, Written, Fits, Values, Shape, FieldsOf;
    var secs: nat := if unixSecs < 0 then 0 else unixSecs;
    FieldsFit(secs);
    FieldCount(secs);
    WrittenReads(FieldsOf(secs));
    DaysAndDates(secs / 86_400, EPOCH);
    hide Valid;
    FieldValues(secs);
    TimeOfDay(secs % 86_400);
  }

  lemma FieldCount(secs: nat)
    ensures |FieldsOf(secs)| == 6
  {
    hide DaysToYmd, DayNumber;
  }

  // ---------------- timestamps sort as text -----------------------------

  /** Comparing strings by their first difference. */
  predicate Less(a: string, b: string) {
    b != "" && (a == "" || a[0] < b[0] || (a[0] == b[0] && Less(a[1..], b[1..])))
  }

  lemma {:induction false} LessAppend(a: string, b: string, x: string, y: string)
    requires |a| == |b|
    ensures Less(a + x, b + y) <==> Less(a, b) || (a == b && Less(x, y))
  {
    if a == "" {
      assert a + x == x && b + y == y;
    } else {
      assert (a + x)[1..] == a[1..] + x && (b + y)[1..] == b[1..] + y;
      assert a == [a[0]] + a[1..] && b == [b[0]] + b[1..];
      LessAppend(a[1..], b[1..], x, y);
    }
  }

  /** Digit strings of one length sort as the numbers they write. */
  lemma {:induction false} DigitsSort(a: string, b: string)
    requires |a| == |b| && AllDigits(a) && AllDigits(b)
    ensures Less(a, b) <==> NatOf(a) < NatOf(b)
    ensures a == b <==> NatOf(a) == NatOf(b)
    decreases |a|
  {
    if a != "" {
      var n := |a| - 1;
      DigitsSort(a[..n], b[..n]);
      LessAppend(a[..n], b[..n], [a[n]], [b[n]]);
      assert a == a[..n] + [a[n]] && b == b[..n] + [b[n]];
      assert Less([a[n]], [b[n]]) <==> a[n] < b[n];
    }
  }

  predicate LessFields(a: seq<nat>, b: seq<nat>)
    requires |a| == |b|
  {
    a != [] && (a[0] < b[0] || (a[0] == b[0] && LessFields(a[1..], b[1..])))
  }

  lemma {:induction false} FieldsSort(a: seq<Field>, b: seq<Field>)
    requires Shape(a) == Shape(b) && |a| == |b|
    requires forall i | 0 <= i < |a| :: Fits(a[i]) && Fits(b[i])
    ensures Less(Written(a), Written(b)) <==> LessFields(Values(a), Values(b))
  {
    hide ZeroPadded, NatOf, Pow10;
    if a != [] {
      assert Shape(a)[0] == Shape(b)[0];
      assert Shape(a[1..]) == Shape(a)[1..] && Shape(b[1..]) == Shape(b)[1..];
      FieldsSort(a[1..], b[1..]);
      assert Values(a)[1..] == Values(a[1..]) && Values(b)[1..] == Values(b[1..]);
      var x, y := ZeroPadded(a[0].value, a[0].width), ZeroPadded(b[0].value, b[0].width);
      PaddedFits(a[0].value, a[0].width);
      PaddedFits(b[0].value, b[0].width);
      DigitsSort(x, y);
      OneField(x, y, a[0].mark, Written(a[1..]), Written(b[1..]));
    }
  }

  lemma OneField(x: string, y: string, mark: char, u: string, v: string)
    requires |x| == |y|
    ensures Less(x + [mark] + u, y + [mark] + v) <==> Less(x, y) || (x == y && Less(u, v))
  {
    LessAppend(x + [mark], y + [mark], u, v);
    LessAppend(x, y, [mark], [mark]);
    assert x + [mark] == y + [mark] ==> x == (x + [mark])[..|x|] == (y + [mark])[..|y|] == y;
  }

  /** Up to the year 10000 the order of timestamps as text is the order of time. */
  lemma TimestampsSort(s: nat, t: nat)
    requires s < YEAR_10000 && t < YEAR_10000
    ensures Less(FormatUtcIso8601(s), FormatUtcIso8601(t)) <==> s < t
    ensures FormatUtcIso8601(s) == FormatUtcIso8601(t) <==> s == t
  {
    hide DaysToYmd, DayNumber, Written, Pow10, LessFields, FormatUtcIso8601, Less, ReadTimestamp;
    FieldsFit(s);
    FieldsFit(t);
    FieldsSort(FieldsOf(s), FieldsOf(t));
    TimestampReads(s);
    TimestampReads(t);
    FieldOrderIsTime(s, t);
    assert FormatUtcIso8601(s) == Written(FieldsOf(s)) && FormatUtcIso8601(t) == Written(FieldsOf(t)) by {
      FormatIsWritten(s);
      FormatIsWritten(t);
    }
  }

  lemma FormatIsWritten(s: nat)
    requires s < YEAR_10000
    ensures FormatUtcIso8601(s) == Written(FieldsOf(s))
  {
  }

  lemma FieldOrderIsTime(s: nat, t: nat)
    requires s < YEAR_10000 && t < YEAR_10000
    ensures LessFields(Values(FieldsOf(s)), Values(FieldsOf(t))) <==> s < t
  {
    hide DaysToYmd, LessFields, Valid, FieldsOf, Values;
    var m, n := s / 86_400, t / 86_400;
    DatesInOrder(m, n);
    DatesInOrder(n, m);
    FieldValues(s);
    FieldValues(t);
    var a, b := Values(FieldsOf(s)), Values(FieldsOf(t));
    SixFields(a, b);
    TimesOfDaySort(s % 86_400, t % 86_400);
    DayFirst(s, t);
    assert a[0] == DaysToYmd(m).year && b[0] == DaysToYmd(n).year;
    assert m == n ==> a[0] == b[0] && a[1] == b[1] && a[2] == b[2];
  }

  lemma DayFirst(s: nat, t: nat)
    ensures s < t <==> s / 86_400 < t / 86_400 || (s / 86_400 == t / 86_400 && s % 86_400 < t % 86_400)
  {
  }

  lemma TimesOfDaySort(s: nat, t: nat)
    ensures s < t <==>
            || s / 3600 < t / 3600
            || (s / 3600 == t / 3600
                && (s % 3600 / 60 < t % 3600 / 60 || (s % 3600 / 60 == t % 3600 / 60 && s % 60 < t % 60)))
  {
    MinuteOfHour(s);
    MinuteOfHour(t);
    var a, b := s % 3600, t % 3600;
    assert s == 3600 * (s / 3600) + a && t == 3600 * (t / 3600) + b;
    assert a == 60 * (a / 60) + s % 60 && b == 60 * (b / 60) + t % 60;
  }

  lemma SixFields(a: seq<nat>, b: seq<nat>)
    requires |a| == 6 && |b| == 6
    ensures LessFields(a, b) <==>
            || a[0] < b[0] || (a[0] == b[0] && (a[1] < b[1] || (a[1] == b[1] && (a[2] < b[2] || (a[2] == b[2]
            && (a[3] < b[3] || (a[3] == b[3] && (a[4] < b[4] || (a[4] == b[4] && a[5] < b[5])))))))))
  {
    assert LessFields(a[3..], b[3..]) <==>
           a[3] < b[3] || (a[3] == b[3] && (a[4] < b[4] || (a[4] == b[4] && a[5] < b[5]))) by {
      assert a[3..][1..] == a[4..] && a[4..][1..] == a[5..] && a[5..][1..] == [];
      assert b[3..][1..] == b[4..] && b[4..][1..] == b[5..] && b[5..][1..] == [];
      assert LessFields(a[5..], b[5..]) <==> a[5] < b[5];
    }
    assert a[1..][1..] == a[2..] && a[2..][1..] == a[3..];
    assert b[1..][1..] == b[2..] && b[2..][1..] == b[3..];
    assert LessFields(a[2..], b[2..]) <==> a[2] < b[2] || (a[2] == b[2] && LessFields(a[3..], b[3..]));
  }
}
