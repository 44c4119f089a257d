/**
 Closed-form conversion between Gregorian dates and Julian Day Numbers.

 Python's `//` floors and every divisor below is positive, so Dafny's `/` is the same operator on
 negative operands too.
 */
module Gregorian {
  import opened Outcomes

  datatype Date = Date(year: int, month: int, day: int)

  /** The 4/100/400 rule of section 3.2.1 of ISO 8601:2004. */
  predicate IsLeap(year: int) {
    year % 4 == 0 && (year % 100 != 0 || year % 400 == 0)
  }

  function DaysInMonth(year: int, month: int): int {
    if month == 2 then (if IsLeap(year) then 29 else 28)
    else if month in {4, 6, 9, 11} then 30
    else 31
  }

  predicate Valid(date: Date) {
    1 <= date.month <= 12 && 1 <= date.day <= DaysInMonth(date.year, date.month)
  }

  function NextDay(date: Date): Date {
    if date.day < DaysInMonth(date.year, date.month) then date.(day := date.day + 1)
    else if date.month < 12 then Date(date.year, date.month + 1, 1)
    else Date(date.year + 1, 1, 1)
  }

  predicate Before(a: Date, b: Date) {
    || a.year < b.year
    || (a.year == b.year && a.month < b.month)
    || (a.year == b.year && a.month == b.month && a.day < b.day)
  }

  function ToJdn(date: Date): int {
    var a := (14 - date.month) / 12;
    var yy := date.year + 4800 - a;
    var mm := date.month + 12 * a - 3;
    date.day + (153 * mm + 2) / 5 + 365 * yy + yy / 4 - yy / 100 + yy / 400 - 32045
  }

  /** The triple that `_jdn_to_gregorian` hands to `date(...)`. */
  function Civil(jdn: int): Date {
    var a := jdn + 32044;
    var b := (4 * a + 3) / 146097;
    var c := a - (146097 * b) / 4;
    var d2 := (4 * c + 3) / 1461;
    var e := c - (1461 * d2) / 4;
    var m2 := (5 * e + 2) / 153;
    Date(100 * b + d2 - 4800 + m2 / 10, m2 + 3 - 12 * (m2 / 10), e - (153 * m2 + 2) / 5 + 1)
  }

  datatype CalendarError = ValueError

  /** Python's `date(...)` accepts a triple only when it is a calendar date of the years 1 to 9999. */
  function PythonDate(date: Date): Result<Date, CalendarError> {
    if 1 <= date.year <= 9999 && Valid(date) then Ok(date) else Err(ValueError)
  }

  function JdnToGregorian(jdn: int): Result<Date, CalendarError> {
    PythonDate(Civil(jdn))
  }

  // ----- The three floor-division steps, each with its exact range -----

  lemma CenturyStep(a: int, b: int)
    ensures (4 * a + 3) / 146097 == b <==> (146097 * b) / 4 <= a < (146097 * (b + 1)) / 4
  {}

  lemma YearStep(c: int, d2: int)
    ensures (4 * c + 3) / 1461 == d2 <==> (1461 * d2) / 4 <= c < (1461 * (d2 + 1)) / 4
  {}

  lemma MonthStep(e: int, m2: int)
    ensures (5 * e + 2) / 153 == m2 <==> (153 * m2 + 2) / 5 <= e < (153 * (m2 + 1) + 2) / 5
  {}

  /** Days before March-based year 100*b + d2, split by century. */
  lemma YearStart(b: int, d2: int)
    requires 0 <= d2 < 100
    ensures var yy := 100 * b + d2;
            365 * yy + yy / 4 - yy / 100 + yy / 400 == (146097 * b) / 4 + (1461 * d2) / 4
  {
    var yy := 100 * b + d2;
    assert yy / 100 == b;
    assert yy / 400 == b / 4;
    assert yy / 4 == 25 * b + d2 / 4;
    assert (146097 * b) / 4 == 36524 * b + b / 4;
    assert (1461 * d2) / 4 == 365 * d2 + d2 / 4;
  }

  /** Position of a date in its March-based year: month mm of 0..11, day e of the year, year yy. */
  lemma MarchYear(date: Date, yy: int, mm: int, e: int)
    requires Valid(date)
    requires yy == date.year + 4800 - (14 - date.month) / 12
    requires mm == date.month + 12 * ((14 - date.month) / 12) - 3
    requires e == date.day - 1 + (153 * mm + 2) / 5
    ensures 0 <= mm <= 11 && (153 * mm + 2) / 5 <= e < (153 * (mm + 1) + 2) / 5
    ensures 0 <= e < 365 + (if IsLeap(yy - 4799) then 1 else 0)
  {}

  lemma YearsBefore99(d2: int)
    requires 0 <= d2 < 99
    ensures (1461 * (d2 + 1)) / 4 <= 36159
  {}

  /** Multiplying by 4k + 1 before dividing by 4 keeps k whole parts and one quarter. */
  lemma Quarters(k: int, n: int)
    ensures ((4 * k + 1) * n) / 4 == k * n + n / 4
  {
    assert (4 * k + 1) * n == 4 * (k * n) + n;
  }

  lemma CenturyLength(b: int)
    ensures (146097 * (b + 1)) / 4 - (146097 * b) / 4 == 36524 + (if b % 4 == 3 then 1 else 0)
  {
    Quarters(36524, b);
    Quarters(36524, b + 1);
  }

  lemma YearLength(d2: int)
    ensures (1461 * (d2 + 1)) / 4 - (1461 * d2) / 4 == 365 + (if d2 % 4 == 3 then 1 else 0)
  {
    Quarters(365, d2);
    Quarters(365, d2 + 1);
  }

  /** The February that ends March-based year 100*b + d2 belongs to calendar year 100*b + d2 - 4799. */
  lemma LeapMarchYear(b: int, d2: int)
    requires 0 <= d2 < 100
    ensures IsLeap(100 * b + d2 - 4799) <==> d2 % 4 == 3 && (d2 == 99 ==> b % 4 == 3)
  {
    var y := 100 * b + d2 - 4799;
    assert y % 4 == (d2 + 1) % 4;
    assert y == 100 * (b - 48) + (d2 + 1);
    if d2 == 99 {
      assert y == 400 * ((b - 47) / 4) + 100 * ((b - 47) % 4);
    }
  }

  /** Room left in the year and in the century for day e, by the leap rule. */
  lemma MarchYearFits(b: int, d2: int, e: int)
    requires 0 <= d2 < 100
    requires 0 <= e < 365 + (if IsLeap(100 * b + d2 - 4799) then 1 else 0)
    ensures (1461 * d2) / 4 + e < (1461 * (d2 + 1)) / 4
    ensures (146097 * b) / 4 + (1461 * d2) / 4 + e < (146097 * (b + 1)) / 4
  {
    LeapMarchYear(b, d2);
    CenturyLength(b);
    YearLength(d2);
    if d2 < 99 {
      YearsBefore99(d2);
    }
  }

  ghost predicate InCalendar(b: int, d2: int, m2: int, e: int) {
    && 0 <= d2 < 100
    && 0 <= m2 <= 11
    && (153 * m2 + 2) / 5 <= e < (153 * (m2 + 1) + 2) / 5
    && (1461 * d2) / 4 + e < (1461 * (d2 + 1)) / 4
    && (146097 * b) / 4 + (1461 * d2) / 4 + e < (146097 * (b + 1)) / 4
  }

  ghost function DateAt(b: int, d2: int, m2: int, e: int): Date {
    Date(100 * b + d2 - 4800 + m2 / 10, m2 + 3 - 12 * (m2 / 10), e - (153 * m2 + 2) / 5 + 1)
  }

  lemma BackToCalendar(date: Date, yy: int, mm: int)
    requires Valid(date)
    requires yy == date.year + 4800 - (14 - date.month) / 12
    requires mm == date.month + 12 * ((14 - date.month) / 12) - 3
    ensures yy - 4800 + mm / 10 == date.year && mm + 3 - 12 * (mm / 10) == date.month
  {}

  /** A calendar date as century b, year d2 of it, month m2 of the March-based year and day e of it. */
  lemma PositionOf(date: Date) returns (b: int, d2: int, m2: int, e: int)
    requires Valid(date)
    ensures InCalendar(b, d2, m2, e)
    ensures ToJdn(date) + 32044 == (146097 * b) / 4 + (1461 * d2) / 4 + e
    ensures date == DateAt(b, d2, m2, e)
  {
    var yy := date.year + 4800 - (14 - date.month) / 12;
    m2 := date.month + 12 * ((14 - date.month) / 12) - 3;
    e := date.day - 1 + (153 * m2 + 2) / 5;
    MarchYear(date, yy, m2, e);
    b, d2 := yy / 100, yy % 100;
    MarchYearFits(b, d2, e);
    YearStart(b, d2);
    BackToCalendar(date, yy, m2);
  }

  lemma CivilUnfolds(jdn: int, b: int, c: int, d2: int, e: int, m2: int)
    requires (4 * (jdn + 32044) + 3) / 146097 == b && c == jdn + 32044 - (146097 * b) / 4
    requires (4 * c + 3) / 1461 == d2 && e == c - (1461 * d2) / 4
    requires (5 * e + 2) / 153 == m2
    ensures Civil(jdn) == DateAt(b, d2, m2, e)
  {}

  /** The decoder recovers century, year, month and day from any in-range position. */
  lemma CivilOf(jdn: int, b: int, d2: int, m2: int, e: int)
    requires InCalendar(b, d2, m2, e)
    requires jdn + 32044 == (146097 * b) / 4 + (1461 * d2) / 4 + e
    ensures Civil(jdn) == DateAt(b, d2, m2, e)
  {
    var c := (1461 * d2) / 4 + e;
    CenturyStep(jdn + 32044, b);
    YearStep(c, d2);
    MonthStep(e, m2);
    CivilUnfolds(jdn, b, c, d2, e, m2);
  }

  /** Every calendar date survives encoding and decoding. */
  lemma DecodeEncode(date: Date)
    requires Valid(date)
    ensures Civil(ToJdn(date)) == date
  {
    var b, d2, m2, e := PositionOf(date);
    CivilOf(ToJdn(date), b, d2, m2, e);
  }

  lemma YearsOfCentury(c: int, d2: int)
    requires 0 <= c <= 36524 && d2 == (4 * c + 3) / 1461
    ensures 0 <= d2 < 100
  {}

  lemma MonthsOfYear(e: int, m2: int)
    requires 0 <= e <= 365 && m2 == (5 * e + 2) / 153
    ensures 0 <= m2 <= 11
  {  }

  lemma MarchYearLength(b: int, d2: int, c: int, e: int)
    requires 0 <= d2 < 100 && e == c - (1461 * d2) / 4
    requires (1461 * d2) / 4 <= c < (1461 * (d2 + 1)) / 4
    requires c < 36524 + (if b % 4 == 3 then 1 else 0)
    ensures 0 <= e < 365 + (if IsLeap(100 * b + d2 - 4799) then 1 else 0)
  {
    LeapMarchYear(b, d2);
    YearLength(d2);
  }

  lemma Decompose(jdn: int) returns (b: int, d2: int, m2: int, e: int)
    ensures 0 <= d2 < 100 && 0 <= m2 <= 11
    ensures (153 * m2 + 2) / 5 <= e < (153 * (m2 + 1) + 2) / 5
    ensures 0 <= e < 365 + (if IsLeap(100 * b + d2 - 4799) then 1 else 0)
    ensures jdn + 32044 == (146097 * b) / 4 + (1461 * d2) / 4 + e
    ensures Civil(jdn) == DateAt(b, d2, m2, e)
  {
    var a := jdn + 32044;
    b := (4 * a + 3) / 146097;
    CenturyStep(a, b);
    CenturyLength(b);
    var c := a - (146097 * b) / 4;
    d2 := (4 * c + 3) / 1461;
    YearStep(c, d2);
    YearsOfCentury(c, d2);
    e := c - (1461 * d2) / 4;
    MarchYearLength(b, d2, c, e);
    m2 := (5 * e + 2) / 153;
    MonthStep(e, m2);
    MonthsOfYear(e, m2);
  }

  lemma ValidMarchDay(yy: int, m2: int, e: int)
    requires 0 <= m2 <= 11 && (153 * m2 + 2) / 5 <= e < (153 * (m2 + 1) + 2) / 5
    requires 0 <= e < 365 + (if IsLeap(yy - 4799) then 1 else 0)
    ensures var date := Date(yy - 4800 + m2 / 10, m2 + 3 - 12 * (m2 / 10), e - (153 * m2 + 2) / 5 + 1);
            && Valid(date)
            && ToJdn(date) == e + 365 * yy + yy / 4 - yy / 100 + yy / 400 - 32044
  {}

  /** Every day number, however early, decodes to a calendar date that encodes back to it. */
  lemma EncodeDecode(jdn: int)
    ensures Valid(Civil(jdn)) && ToJdn(Civil(jdn)) == jdn
  {
    var b, d2, m2, e := Decompose(jdn);
    YearStart(b, d2);
    ValidMarchDay(100 * b + d2, m2, e);
  }

  lemma DayOffset(date: Date)
    ensures ToJdn(date) == ToJdn(date.(day := 1)) + date.day - 1
  {}

  lemma Crossing4(yy: int)
    ensures yy / 4 - (yy - 1) / 4 == if (yy - 4800) % 4 == 0 then 1 else 0
  {}

  lemma Crossing100(yy: int)
    ensures yy / 100 - (yy - 1) / 100 == if (yy - 4800) % 100 == 0 then 1 else 0
  {}

  lemma Crossing400(yy: int)
    ensures yy / 400 - (yy - 1) / 400 == if (yy - 4800) % 400 == 0 then 1 else 0
  {}

  lemma LeapGap(yy: int)
    ensures yy / 4 - (yy - 1) / 4 - yy / 100 + (yy - 1) / 100 + yy / 400 - (yy - 1) / 400
         == if IsLeap(yy - 4800) then 1 else 0
  {
    Crossing4(yy);
    Crossing100(yy);
    Crossing400(yy);
  }

  lemma MonthGap(year: int, month: int)
    requires 1 <= month < 12
    ensures ToJdn(Date(year, month + 1, 1)) == ToJdn(Date(year, month, 1)) + DaysInMonth(year, month)
  {
    if month == 2 {
      LeapGap(year + 4800);
    }
  }

  lemma NewYear(year: int)
    ensures ToJdn(Date(year + 1, 1, 1)) == ToJdn(Date(year, 12, 1)) + 31
  {}

  /** The closed form advances by exactly one per calendar day. */
  lemma EncodeNextDay(date: Date)
    requires Valid(date)
    ensures Valid(NextDay(date)) && ToJdn(NextDay(date)) == ToJdn(date) + 1
  {
    DayOffset(date);
    if date.day < DaysInMonth(date.year, date.month) {
      DayOffset(NextDay(date));
    } else if date.month < 12 {
      MonthGap(date.year, date.month);
    } else {
      NewYear(date.year);
    }
  }

  /** Decoding consecutive numbers walks the calendar day by day. */
  lemma CivilNext(jdn: int)
    ensures Civil(jdn + 1) == NextDay(Civil(jdn))
  {
    EncodeDecode(jdn);
    EncodeNextDay(Civil(jdn));
    DecodeEncode(NextDay(Civil(jdn)));
  }

  /** The date n days later, counted one day at a time. */
  function DaysAfter(date: Date, n: nat): Date {
    if n == 0 then date else NextDay(DaysAfter(date, n - 1))
  }

  lemma {:induction false} CountDaysOf(decode: int -> Date, jdn: int, n: nat)
    requires forall k, l :: l == k + 1 ==> decode(l) == NextDay(decode(k))
    ensures decode(jdn + n) == DaysAfter(decode(jdn), n)
  {
    if n > 0 {
      CountDaysOf(decode, jdn, n - 1);
    }
  }

  /** Decoding is counting from any day number on. */
  lemma CountDays(jdn: int, n: nat)
    ensures Civil(jdn + n) == DaysAfter(Civil(jdn), n)
  {
    forall k, l | l == k + 1
      ensures Civil(l) == NextDay(Civil(k))
    {
      CivilNext(k);
    }
    CountDaysOf(Civil, jdn, n);
  }

  /** Days of a year that precede a month. */
  ghost function DaysBefore(year: int, month: int): int
    requires 1 <= month <= 12
  {
    if month == 1 then 0 else DaysBefore(year, month - 1) + DaysInMonth(year, month - 1)
  }

  lemma {:induction false} DayOfYear(date: Date)
    requires 1 <= date.month <= 12
    ensures ToJdn(date) == ToJdn(Date(date.year, 1, 1)) + DaysBefore(date.year, date.month) + date.day - 1
    decreases date.month
  {
    DayOffset(date);
    if date.month > 1 {
      DayOfYear(Date(date.year, date.month - 1, 1));
      MonthGap(date.year, date.month - 1);
    }
  }

  lemma {:induction false} DaysBeforeGrows(year: int, m: int, n: int)
    requires 1 <= m < n <= 12
    ensures DaysBefore(year, m) + DaysInMonth(year, m) <= DaysBefore(year, n)
    decreases n
  {
    if m + 1 < n {
      DaysBeforeGrows(year, m, n - 1);
    }
  }

  lemma WithinYear(a: Date, b: Date)
    requires Valid(a) && Valid(b) && Before(a, b) && a.year == b.year
    ensures ToJdn(a) < ToJdn(b)
  {
    DayOfYear(a);
    DayOfYear(b);
    if a.month < b.month {
      DaysBeforeGrows(a.year, a.month, b.month);
    }
  }

  lemma YearsGrow(yy: int, zz: int)
    requires yy < zz
    ensures 365 * yy + yy / 4 - yy / 100 + yy / 400 < 365 * zz + zz / 4 - zz / 100 + zz / 400
  {
    assert yy / 100 == (yy / 4) / 25 && zz / 100 == (zz / 4) / 25;
  }

  lemma YearStarts(y: int, z: int)
    requires y <= z
    ensures ToJdn(Date(y, 1, 1)) <= ToJdn(Date(z, 1, 1))
  {
    if y < z {
      YearsGrow(y + 4799, z + 4799);
    }
  }

  /** A year occupies the day numbers from its 1 January up to the next one. */
  lemma YearEnd(date: Date)
    requires Valid(date)
    ensures ToJdn(Date(date.year, 1, 1)) <= ToJdn(date) < ToJdn(Date(date.year + 1, 1, 1))
  {
    DayOfYear(date);
    DayOfYear(Date(date.year, 12, 1));
    NewYear(date.year);
    if date.month > 1 {
      DaysBeforeGrows(date.year, 1, date.month);
    }
    if date.month < 12 {
      DaysBeforeGrows(date.year, date.month, 12);
    }
  }

  lemma EncodeStrict(a: Date, b: Date)
    requires Valid(a) && Valid(b) && Before(a, b)
    ensures ToJdn(a) < ToJdn(b)
  {
    if a.year == b.year {
      WithinYear(a, b);
    } else {
      YearEnd(a);
      YearEnd(b);
      YearStarts(a.year + 1, b.year);
    }
  }

  /** Calendar order is day-number order. */
  lemma EncodeOrder(a: Date, b: Date)
    requires Valid(a) && Valid(b)
    ensures Before(a, b) <==> ToJdn(a) < ToJdn(b)
  {
    if Before(a, b) {
      EncodeStrict(a, b);
    } else if Before(b, a) {
      EncodeStrict(b, a);
    }
  }

  /** Day number 0 of the proleptic Gregorian calendar. */
  const ORIGIN := Date(-4713, 11, 24)

  lemma {:induction false} CountedDayEncodes(n: nat)
    ensures Valid(DaysAfter(ORIGIN, n)) && ToJdn(DaysAfter(ORIGIN, n)) == n
  {
    if n > 0 {
      CountedDayEncodes(n - 1);
      EncodeNextDay(DaysAfter(ORIGIN, n - 1));
    }
  }

  lemma EncodeInjective(a: Date, b: Date)
    requires Valid(a) && Valid(b) && ToJdn(a) == ToJdn(b)
    ensures a == b
  {
    EncodeOrder(a, b);
    EncodeOrder(b, a);
  }

  /** A date has day number n exactly when it is n days after the origin, counted one day at a time. */
  lemma DayNumberCountsDays(date: Date, n: nat)
    requires Valid(date)
    ensures ToJdn(date) == n <==> date == DaysAfter(ORIGIN, n)
  {
    CountedDayEncodes(n);
    if ToJdn(date) == n {
      EncodeInjective(date, DaysAfter(ORIGIN, n));
    }
  }

  lemma EndsEncoded()
    ensures ToJdn(Date(1, 1, 1)) == 1721426 && ToJdn(Date(9999, 12, 31)) == 5373484
  {}

  lemma RangeEnds(date: Date)
    requires Valid(date)
    ensures 1 <= date.year <= 9999 <==> 1721426 <= ToJdn(date) <= 5373484
  {
    EncodeOrder(date, Date(1, 1, 1));
    EncodeOrder(Date(9999, 12, 31), date);
    EndsEncoded();
  }

  /** Python's `date` rejects the decoded triple exactly outside 0001-01-01 .. 9999-12-31. */
  lemma DecodableRange(jdn: int)
    ensures JdnToGregorian(jdn).Ok? <==> 1721426 <= jdn <= 5373484
    ensures JdnToGregorian(jdn).Ok? ==> JdnToGregorian(jdn).value == Civil(jdn)
  {
    EncodeDecode(jdn);
    RangeEnds(Civil(jdn));
  }

  lemma YearSigns(date: Date)
    requires Valid(date) && ToJdn(date) >= 1721426
    ensures date.year >= 1
  {
    EndsEncoded();
    EncodeOrder(date, Date(1, 1, 1));
  }

  /** A day number that is not too early fails exactly past the year 9999. */
  lemma NotTooEarly(jdn: int)
    requires jdn >= 1721426
    ensures JdnToGregorian(jdn) == if Civil(jdn).year <= 9999 then Ok(Civil(jdn)) else Err(ValueError)
  {
    EncodeDecode(jdn);
    YearSigns(Civil(jdn));
  }

  lemma OnwardsOf(convert: int -> Result<Date, CalendarError>, decode: int -> Date, jdn: int, n: nat)
    requires forall k, l :: l == k + 1 ==> decode(l) == NextDay(decode(k))
    requires forall k :: convert(k).Ok? ==> k >= 1721426 && convert(k).value == decode(k)
    requires forall k :: k >= 1721426 ==>
      convert(k) == if decode(k).year <= 9999 then Ok(decode(k)) else Err(ValueError)
    requires convert(jdn).Ok?
    ensures var date := DaysAfter(convert(jdn).value, n);
            convert(jdn + n) == if date.year <= 9999 then Ok(date) else Err(ValueError)
  {
    CountDaysOf(decode, jdn, n);
  }

  /** From a day that decodes, n days on are the date n days later, or an error past the year 9999. */
  lemma DecodeOnwards(jdn: int, n: nat)
    requires JdnToGregorian(jdn).Ok?
    ensures var date := DaysAfter(JdnToGregorian(jdn).value, n);
            JdnToGregorian(jdn + n) == if date.year <= 9999 then Ok(date) else Err(ValueError)
  {
    forall k, l | l == k + 1
      ensures Civil(l) == NextDay(Civil(k))
    {
      CivilNext(k);
    }
    forall k | JdnToGregorian(k).Ok?
      ensures k >= 1721426 && JdnToGregorian(k).value == Civil(k)
    {
      DecodableRange(k);
    }
    forall k | k >= 1721426
      ensures JdnToGregorian(k) == if Civil(k).year <= 9999 then Ok(Civil(k)) else Err(ValueError)
    {
      NotTooEarly(k);
    }
    OnwardsOf(JdnToGregorian, Civil, jdn, n);
  }
}
