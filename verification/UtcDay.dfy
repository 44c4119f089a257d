/** UTC days of millisecond times. */
module UtcDay {

  const MS_PER_DAY := 86_400_000

  /** The UTC day a time falls on; the source writes it as YYYY-MM-DD. */
  function Day(time: int): int {
    time / MS_PER_DAY
  }

  function StartOfUtcDay(now: int): int {
    now - now % MS_PER_DAY
  }

  lemma SameDay(now: int)
    ensures Day(StartOfUtcDay(now)) == Day(now) && StartOfUtcDay(StartOfUtcDay(now)) == StartOfUtcDay(now)
  {}

  lemma SameDayStart(a: int, b: int)
    requires StartOfUtcDay(a) == a && StartOfUtcDay(b) == b && Day(a) == Day(b)
    ensures a == b
  {}

  lemma DayStarts(now: int, later: int)
    requires now <= later
    ensures StartOfUtcDay(now) == StartOfUtcDay(later) || now < StartOfUtcDay(later)
    ensures StartOfUtcDay(now) <= now
  {}

  lemma DayOfTime(now: int, day: int)
    ensures day * MS_PER_DAY <= StartOfUtcDay(now) < (day + 1) * MS_PER_DAY <==> Day(now) == day
  {}
}
