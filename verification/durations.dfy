/** Durations as in Go's `time` package: a signed count of nanoseconds.
    Here the count is an unbounded integer; the int64 range of `time.Duration`
    is not enforced on durations. */
module Durations {

  type Duration = int

  function OneSecond(): Duration { 1_000_000_000 }

  function OneMinute(): Duration { 60 * OneSecond() }

  function OneHour(): Duration { 60 * OneMinute() }

  /** The calendar-naive unit constants: a day is always 24 hours, a week
      7 days, a month 30 days and a year 365 days. */
  function OneDay(): Duration { 24 * OneHour() }

  function OneWeek(): Duration { 7 * OneDay() }

  function OneMonth(): Duration { 30 * OneDay() }

  function OneYear(): Duration { 365 * OneDay() }
}
