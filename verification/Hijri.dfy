/**
 The Hijri conversion of the document worker, kept exactly as it is written.

 The source says it uses the tabular (civil) Islamic calendar. Its month and leap terms are not the
 tabular ones; this module proves which calendar the formula does implement and how far that
 calendar is from the tabular one.
 */
module Hijri {
  import opened Outcomes
  import G = Gregorian

  datatype HijriDate = HijriDate(year: int, month: int, day: int)

  const ISLAMIC_EPOCH := 1948440

  function ToJdn(h: HijriDate): int {
    h.day + 29 * (h.month - 1) + (6 * h.month) / 11 + (h.year - 1) * 354 + (3 * h.year + 3) / 11 + ISLAMIC_EPOCH - 1
  }

  function HijriToGregorian(h: HijriDate): Result<G.Date, G.CalendarError> {
    G.JdnToGregorian(ToJdn(h))
  }

  // ----- The calendar the formula implies -----

  predicate IsLongYear(year: int) {
    (3 * year + 6) / 11 > (3 * year + 3) / 11
  }

  function MonthLength(year: int, month: int): int {
    if month == 12 then (if IsLongYear(year) then 30 else 29)
    else if month in {1, 3, 5, 7, 9, 10} then 30
    else 29
  }

  predicate Valid(h: HijriDate) {
    1 <= h.month <= 12 && 1 <= h.day <= MonthLength(h.year, h.month)
  }

  function Next(h: HijriDate): HijriDate {
    if h.day < MonthLength(h.year, h.month) then h.(day := h.day + 1)
    else if h.month < 12 then HijriDate(h.year, h.month + 1, 1)
    else HijriDate(h.year + 1, 1, 1)
  }

  predicate Before(a: HijriDate, b: HijriDate) {
    || a.year < b.year
    || (a.year == b.year && a.month < b.month)
    || (a.year == b.year && a.month == b.month && a.day < b.day)
  }

  /** A decoder for the formula; the source has none. */
  function FromJdn(jdn: int): HijriDate {
    var k := jdn - ISLAMIC_EPOCH;
    var y := (11 * k + 4) / 3897;
    var r := k - (3897 * y + 6) / 11;
    var m := (11 * r + 4) / 325;
    HijriDate(y + 1, m + 1, r - (325 * m + 6) / 11 + 1)
  }

  lemma YearStep(k: int, y: int)
    ensures (11 * k + 4) / 3897 == y <==> (3897 * y + 6) / 11 <= k < (3897 * (y + 1) + 6) / 11
  {}

  lemma MonthStep(r: int, m: int)
    ensures (11 * r + 4) / 325 == m <==> (325 * m + 6) / 11 <= r < (325 * (m + 1) + 6) / 11
  {}

  lemma YearSpan(y: int)
    ensures (3897 * (y + 1) + 6) / 11 - (3897 * y + 6) / 11 == (if IsLongYear(y + 1) then 355 else 354)
    ensures (3897 * y + 6) / 11 == 354 * y + (3 * (y + 1) + 3) / 11
  {
    assert 3897 * y + 6 == 11 * (354 * y) + (3 * y + 6);
    assert 3897 * (y + 1) + 6 == 11 * (354 * (y + 1)) + (3 * y + 9);
  }

  /** A valid date sits inside its year and inside its month. */
  lemma Position(h: HijriDate, y: int, m: int, r: int)
    requires Valid(h) && y == h.year - 1 && m == h.month - 1 && r == (325 * m + 6) / 11 + h.day - 1
    ensures (325 * m + 6) / 11 <= r < (325 * (m + 1) + 6) / 11
    ensures 0 <= r < (if IsLongYear(h.year) then 355 else 354)
    ensures ToJdn(h) == ISLAMIC_EPOCH + 354 * y + (3 * (y + 1) + 3) / 11 + r
  {}

  lemma DecodeEncode(h: HijriDate)
    requires Valid(h)
    ensures FromJdn(ToJdn(h)) == h
  {
    var y, m := h.year - 1, h.month - 1;
    var r := (325 * m + 6) / 11 + h.day - 1;
    Position(h, y, m, r);
    YearSpan(y);
    YearStep(ToJdn(h) - ISLAMIC_EPOCH, y);
    MonthStep(r, m);
  }

  lemma Decompose(jdn: int) returns (y: int, m: int, r: int)
    ensures 0 <= r < (if IsLongYear(y + 1) then 355 else 354)
    ensures (325 * m + 6) / 11 <= r < (325 * (m + 1) + 6) / 11
    ensures jdn == ISLAMIC_EPOCH + 354 * y + (3 * (y + 1) + 3) / 11 + r
    ensures FromJdn(jdn) == HijriDate(y + 1, m + 1, r - (325 * m + 6) / 11 + 1)
  {
    var k := jdn - ISLAMIC_EPOCH;
    y := (11 * k + 4) / 3897;
    YearStep(k, y);
    YearSpan(y);
    r := k - (3897 * y + 6) / 11;
    m := (11 * r + 4) / 325;
    MonthStep(r, m);
  }

  lemma DayOfYear(y: int, m: int, r: int)
    requires 0 <= r < (if IsLongYear(y + 1) then 355 else 354)
    requires (325 * m + 6) / 11 <= r < (325 * (m + 1) + 6) / 11
    ensures var h := HijriDate(y + 1, m + 1, r - (325 * m + 6) / 11 + 1);
            Valid(h) && ToJdn(h) == ISLAMIC_EPOCH + 354 * y + (3 * (y + 1) + 3) / 11 + r
  {}

  lemma EncodeDecode(jdn: int)
    ensures Valid(FromJdn(jdn)) && ToJdn(FromJdn(jdn)) == jdn
  {
    var y, m, r := Decompose(jdn);
    DayOfYear(y, m, r);
  }

  /** Dates from year 1 on are exactly the day numbers from the epoch on. */
  lemma EpochOnwards(h: HijriDate)
    requires Valid(h)
    ensures h.year >= 1 <==> ToJdn(h) >= ISLAMIC_EPOCH
  {
    var r := (325 * (h.month - 1) + 6) / 11 + h.day - 1;
    Position(h, h.year - 1, h.month - 1, r);
  }

  lemma EncodeNext(h: HijriDate)
    requires Valid(h)
    ensures Valid(Next(h)) && ToJdn(Next(h)) == ToJdn(h) + 1
  {}

  lemma EncodeStrict(a: HijriDate, b: HijriDate)
    requires Valid(a) && Valid(b) && Before(a, b)
    ensures ToJdn(a) < ToJdn(b)
  {
    var ra := (325 * (a.month - 1) + 6) / 11 + a.day - 1;
    var rb := (325 * (b.month - 1) + 6) / 11 + b.day - 1;
    Position(a, a.year - 1, a.month - 1, ra);
    Position(b, b.year - 1, b.month - 1, rb);
  }

  lemma EncodeOrder(a: HijriDate, b: HijriDate)
    requires Valid(a) && Valid(b)
    ensures Before(a, b) <==> ToJdn(a) < ToJdn(b)
  {
    if Before(a, b) {
      EncodeStrict(a, b);
    } else if Before(b, a) {
      EncodeStrict(b, a);
    }
  }

  /** The cycle is 11 years of 3897 days, three of them long. */
  lemma ElevenYearCycle(h: HijriDate)
    ensures ToJdn(h.(year := h.year + 11)) == ToJdn(h) + 3897
    ensures IsLongYear(h.year + 11) <==> IsLongYear(h.year)
  {}

  /** Eleven months, counted on past the twelfth where need be, span exactly 325 days. */
  lemma ElevenMonths(h: HijriDate)
    ensures ToJdn(h.(month := h.month + 11)) == ToJdn(h) + 325
  {}

  /** Days count on past the end of a month. */
  lemma DaysRunOn(h: HijriDate, n: int)
    ensures ToJdn(h.(day := h.day + n)) == ToJdn(h) + n
  {}

  /**
   Any triple at all converts as the one date of the calendar with its day number: the two have the same result,
   an error included.
   */
  lemma ConvertsAsItsDay(h: HijriDate)
    ensures Valid(FromJdn(ToJdn(h))) && HijriToGregorian(FromJdn(ToJdn(h))) == HijriToGregorian(h)
    ensures forall g :: Valid(g) && ToJdn(g) == ToJdn(h) ==> g == FromJdn(ToJdn(h))
  {
    EncodeDecode(ToJdn(h));
    forall g | Valid(g) && ToJdn(g) == ToJdn(h)
      ensures g == FromJdn(ToJdn(h))
    {
      DecodeEncode(g);
    }
  }

  /**
   In any month of any year: when a day converts, the day n later in the same month, whether or not the month is
   that long, converts to the Gregorian date n days later, and fails exactly past 31 December 9999.
   */
  lemma ConvertsDayByDay(h: HijriDate, n: nat)
    requires HijriToGregorian(h).Ok?
    ensures var date := G.DaysAfter(HijriToGregorian(h).value, n);
            HijriToGregorian(h.(day := h.day + n)) == if date.year <= 9999 then Ok(date) else Err(G.ValueError)
  {
    DaysRunOn(h, n);
    G.DecodeOnwards(ToJdn(h), n);
  }

  lemma ThirteenthOfJanuary()
    ensures G.JdnToGregorian(2460689) == Ok(G.Date(2025, 1, 13))
  {
    G.CivilUnfolds(2460689, 68, 9084, 24, 318, 10);
  }

  /** The 30th of month 11, which the implied calendar lacks, converts to the day after the 29th. */
  lemma ThirtiethOfEleven()
    ensures !Valid(HijriDate(1446, 11, 30))
    ensures HijriToGregorian(HijriDate(1446, 11, 30)) == Ok(G.Date(2025, 1, 13))
  {
    assert ToJdn(HijriDate(1446, 11, 30)) == 2460689;
    ThirteenthOfJanuary();
  }

  /** Walking the Hijri calendar of the formula walks the Gregorian calendar day by day. */
  lemma GregorianWalk(h: HijriDate)
    requires Valid(h) && HijriToGregorian(h).Ok? && HijriToGregorian(Next(h)).Ok?
    ensures HijriToGregorian(Next(h)).value == G.NextDay(HijriToGregorian(h).value)
  {
    EncodeNext(h);
    G.CivilNext(ToJdn(h));
    G.DecodableRange(ToJdn(h));
    G.DecodableRange(ToJdn(Next(h)));
  }

  /** Conversion is an order embedding: later Hijri dates give later Gregorian dates, and only they do. */
  lemma GregorianOrder(a: HijriDate, b: HijriDate)
    requires Valid(a) && Valid(b) && HijriToGregorian(a).Ok? && HijriToGregorian(b).Ok?
    ensures Before(a, b) <==> G.Before(HijriToGregorian(a).value, HijriToGregorian(b).value)
  {
    EncodeOrder(a, b);
    G.DecodableRange(ToJdn(a));
    G.DecodableRange(ToJdn(b));
    G.EncodeDecode(ToJdn(a));
    G.EncodeDecode(ToJdn(b));
    G.EncodeOrder(G.Civil(ToJdn(a)), G.Civil(ToJdn(b)));
  }

  /** The date n days after the first of the calendar, counted one day at a time. */
  function NthDay(n: nat): HijriDate {
    if n == 0 then HijriDate(1, 1, 1) else Next(NthDay(n - 1))
  }

  lemma {:induction false} NthDayEncodes(n: nat)
    ensures Valid(NthDay(n)) && ToJdn(NthDay(n)) == ISLAMIC_EPOCH + n
  {
    if n > 0 {
      NthDayEncodes(n - 1);
      EncodeNext(NthDay(n - 1));
    }
  }

  const FIRST_DAY := G.Date(622, 7, 19)

  lemma FirstDayEncodes()
    ensures G.Civil(ISLAMIC_EPOCH) == FIRST_DAY
  {
    G.CivilUnfolds(ISLAMIC_EPOCH, 54, 8175, 22, 140, 4);
  }

  /**
   The conversion against counting: a date of year 1 or later is, for exactly one n, the n-th day after
   the first day of the Hijri calendar, and converts to the n-th day after 19 July 622, as long as
   Python's `date` reaches.
   */
  lemma CountedTogether(h: HijriDate) returns (n: nat)
    requires Valid(h) && h.year >= 1
    ensures h == NthDay(n) && forall k: nat :: NthDay(k) == h ==> k == n
    ensures HijriToGregorian(h) == if n <= 3425044 then Ok(G.DaysAfter(FIRST_DAY, n)) else Err(G.ValueError)
  {
    EpochOnwards(h);
    n := ToJdn(h) - ISLAMIC_EPOCH;
    NthDayEncodes(n);
    DecodeEncode(h);
    DecodeEncode(NthDay(n));
    forall k: nat | NthDay(k) == h
      ensures k == n
    {
      NthDayEncodes(k);
    }
    FirstDayEncodes();
    G.CountDays(ISLAMIC_EPOCH, n);
    G.DecodableRange(ToJdn(h));
  }

  const FIRST_CONVERTIBLE := HijriDate(-640, 3, 17)
  const LAST_CONVERTIBLE := HijriDate(9668, 10, 24)

  lemma ConvertibleEnds()
    ensures Valid(FIRST_CONVERTIBLE) && ToJdn(FIRST_CONVERTIBLE) == 1721426
    ensures Valid(LAST_CONVERTIBLE) && ToJdn(LAST_CONVERTIBLE) == 5373484
  {}

  /** The dates of the calendar that convert are exactly the ones Python's `date` can hold. */
  lemma ConvertibleDates(h: HijriDate)
    requires Valid(h)
    ensures HijriToGregorian(h).Ok? <==> !Before(h, FIRST_CONVERTIBLE) && !Before(LAST_CONVERTIBLE, h)
  {
    ConvertibleEnds();
    EncodeOrder(h, FIRST_CONVERTIBLE);
    EncodeOrder(LAST_CONVERTIBLE, h);
    G.DecodableRange(ToJdn(h));
  }

  // ----- Distance from the tabular calendar -----

  function TabularJdn(h: HijriDate): int {
    h.day + 29 * (h.month - 1) + (6 * h.month - 1) / 11 + (h.year - 1) * 354 + (11 * h.year + 3) / 30
    + ISLAMIC_EPOCH - 1
  }

  predicate IsTabularLeap(year: int) {
    (11 * year + 14) % 30 < 11
  }

  function TabularMonthLength(year: int, month: int): int {
    if month % 2 == 1 || (month == 12 && IsTabularLeap(year)) then 30 else 29
  }

  predicate TabularValid(h: HijriDate) {
    1 <= h.month <= 12 && 1 <= h.day <= TabularMonthLength(h.year, h.month)
  }

  function TabularNext(h: HijriDate): HijriDate {
    if h.day < TabularMonthLength(h.year, h.month) then h.(day := h.day + 1)
    else if h.month < 12 then HijriDate(h.year, h.month + 1, 1)
    else HijriDate(h.year + 1, 1, 1)
  }

  /** Days by which the two leap rules have drifted apart at the start of a year. */
  function Drift(year: int): int {
    (11 * year + 3) / 30 - (3 * year + 3) / 11
  }

  lemma TabularMonthStep(month: int)
    requires 1 <= month < 12
    ensures (6 * (month + 1) - 1) / 11 - (6 * month - 1) / 11 == if month % 2 == 1 then 1 else 0
  {}

  lemma TabularLeapStep(year: int)
    ensures (11 * (year + 1) + 3) / 30 - (11 * year + 3) / 30 == if IsTabularLeap(year) then 1 else 0
  {}

  /** The tabular formula really is the 30-year calendar of alternating months. */
  lemma TabularEncodesNext(h: HijriDate)
    requires TabularValid(h)
    ensures TabularValid(TabularNext(h)) && TabularJdn(TabularNext(h)) == TabularJdn(h) + 1
  {
    if h.day == TabularMonthLength(h.year, h.month) {
      if h.month < 12 {
        TabularMonthStep(h.month);
      } else {
        TabularLeapStep(h.year);
      }
    }
  }

  lemma Deviation(h: HijriDate)
    requires 1 <= h.month <= 12
    ensures ToJdn(h) - TabularJdn(h) == (if h.month == 11 then 1 else 0) - Drift(h.year)
    ensures -330 < 330 * Drift(h.year) - (31 * h.year - 57) < 330
    ensures h.year >= 1 ==> Drift(h.year) >= 0
  {}

  /** The code meets the calendar it names exactly here, and nowhere from year 22 on. */
  lemma AgreesWithTabular(h: HijriDate)
    requires 1 <= h.month <= 12 && h.year >= 1
    ensures ToJdn(h) == TabularJdn(h) <==>
      if h.month == 11 then h.year in {6, 8, 9, 11, 12, 13, 14, 15, 16, 18, 21}
      else h.year in {1, 2, 3, 4, 5, 7, 10}
  {
    Deviation(h);
    if h.year > 31 {
      assert Drift(h.year) > 1;
    }
  }

  /** In the Hijri year 1447, which begins in 2025, the result is 136 days early. */
  lemma DriftIn1447(month: int, day: int)
    requires 1 <= month <= 12
    ensures var h := HijriDate(1447, month, day);
            TabularJdn(h) - ToJdn(h) == (if month == 11 then 135 else 136)
  {
    Deviation(HijriDate(1447, month, day));
    assert Drift(1447) == 136;
  }

  /** The code's own date for a tabular one: a 30th that the code's month lacks spills into the next. */
  function Respelled(h: HijriDate): HijriDate {
    if h.day > MonthLength(h.year, h.month) then TabularNext(h) else h
  }

  lemma RespelledSameDay(h: HijriDate)
    requires TabularValid(h)
    ensures Valid(Respelled(h)) && ToJdn(Respelled(h)) == ToJdn(h)
    ensures Respelled(h) != h ==> h.day == MonthLength(h.year, h.month) + 1
  {}

  lemma RespelledOrder(a: HijriDate, b: HijriDate)
    requires TabularValid(a) && TabularValid(b) && Before(a, b)
    ensures Before(Respelled(a), Respelled(b)) || Respelled(a) == Respelled(b)
    ensures Respelled(a) == Respelled(b) <==> a.day > MonthLength(a.year, a.month) && b == TabularNext(a)
  {
    if b.day > MonthLength(b.year, b.month) {
      assert Before(b, Respelled(b));
    }
  }

  /**
   On the dates callers actually write, the day numbers never run backwards, and two different dates
   collide exactly when the first is a 30th that the code's month does not have.
   */
  lemma MonotoneOnTabularDates(a: HijriDate, b: HijriDate)
    requires TabularValid(a) && TabularValid(b) && Before(a, b)
    ensures ToJdn(a) <= ToJdn(b)
    ensures ToJdn(a) == ToJdn(b) <==> a.day > MonthLength(a.year, a.month) && b == TabularNext(a)
  {
    RespelledSameDay(a);
    RespelledSameDay(b);
    RespelledOrder(a, b);
    EncodeOrder(Respelled(a), Respelled(b));
    EncodeOrder(Respelled(b), Respelled(a));
  }

  /** Nor do the converted dates, which collide under the same condition. */
  lemma ConversionMonotone(a: HijriDate, b: HijriDate)
    requires TabularValid(a) && TabularValid(b) && Before(a, b)
    requires HijriToGregorian(a).Ok? && HijriToGregorian(b).Ok?
    ensures var x, y := HijriToGregorian(a).value, HijriToGregorian(b).value;
            && (G.Before(x, y) || x == y)
            && (x == y <==> a.day > MonthLength(a.year, a.month) && b == TabularNext(a))
  {
    MonotoneOnTabularDates(a, b);
    G.DecodableRange(ToJdn(a));
    G.DecodableRange(ToJdn(b));
    G.EncodeDecode(ToJdn(a));
    G.EncodeDecode(ToJdn(b));
    G.EncodeOrder(G.Civil(ToJdn(a)), G.Civil(ToJdn(b)));
  }
}
