/**
 * The benchmark row every parser produces (one DataFrame row with the
 * columns Date, Time, Application, Frames, TimeTaken, AverageFramerate,
 * MinFramerate, MaxFramerate, Low1Percent, Low01Percent), its aggregated
 * integer form, the (Date, Time, Application) grouping key with its sort
 * order, and the library conversions the parsers call.
 */
module Benchmark {
  import opened Wrappers
  import opened Text

  /** A calendar date; Python compares dates by (year, month, day). */
  datatype Date = Date(year: int, month: int, day: int)

  type Hour = h: int | 0 <= h < 24

  /** The date and hour of a `datetime`. */
  datatype Moment = Moment(date: Date, hour: Hour)

  /** One parsed benchmark run. */
  datatype Record = Record(
    date: Date,
    time: string,
    app: string,
    frames: int,
    timeTaken: real,
    avg: real,
    minFps: real,
    maxFps: real,
    low1: real,
    low01: real)

  /** One row of the processed view: every numeric column cast to `int`. */
  datatype Aggregate = Aggregate(
    date: Date,
    time: string,
    app: string,
    frames: int,
    timeTaken: int,
    avg: int,
    minFps: int,
    maxFps: int,
    low1: int,
    low01: int)

  /** The processed row read back as a row of numbers, as `calculate_stats` reads it. */
  function AsRecord(a: Aggregate): Record {
    Record(a.date, a.time, a.app, a.frames, a.timeTaken as real, a.avg as real,
           a.minFps as real, a.maxFps as real, a.low1 as real, a.low01 as real)
  }

  /** The numeric columns, which `groupby(...).mean()` averages. */
  datatype Column = Frames | TimeTaken | AverageFramerate | MinFramerate | MaxFramerate | Low1Percent | Low01Percent

  /** A numeric cell of a row, read as a float. */
  function Value(r: Record, c: Column): real {
    match c
    case Frames => r.frames as real
    case TimeTaken => r.timeTaken
    case AverageFramerate => r.avg
    case MinFramerate => r.minFps
    case MaxFramerate => r.maxFps
    case Low1Percent => r.low1
    case Low01Percent => r.low01
  }

  /** A numeric cell of an aggregated row. */
  function Cell(a: Aggregate, c: Column): int {
    match c
    case Frames => a.frames
    case TimeTaken => a.timeTaken
    case AverageFramerate => a.avg
    case MinFramerate => a.minFps
    case MaxFramerate => a.maxFps
    case Low1Percent => a.low1
    case Low01Percent => a.low01
  }

  /** The grouping key (Date, Time, Application). */
  datatype Key = Key(date: Date, time: string, app: string)

  function KeyOf(r: Record): Key {
    Key(r.date, r.time, r.app)
  }

  function AggregateKey(a: Aggregate): Key {
    Key(a.date, a.time, a.app)
  }

  predicate DateLess(a: Date, b: Date) {
    || a.year < b.year
    || (a.year == b.year && a.month < b.month)
    || (a.year == b.year && a.month == b.month && a.day < b.day)
  }

  /** Ascending order by Date, then Time, then Application, as `sort_values` orders the groups. */
  predicate KeyLess(a: Key, b: Key) {
    || DateLess(a.date, b.date)
    || (a.date == b.date && StrLess(a.time, b.time))
    || (a.date == b.date && a.time == b.time && StrLess(a.app, b.app))
  }

  lemma KeyLessIrreflexive(a: Key)
    ensures !KeyLess(a, a)
  {
    StrLessIrreflexive(a.time);
    StrLessIrreflexive(a.app);
  }

  lemma KeyLessTransitive(a: Key, b: Key, c: Key)
    requires KeyLess(a, b) && KeyLess(b, c)
    ensures KeyLess(a, c)
  {
    if a.date == b.date && b.date == c.date {
      if StrLess(a.time, b.time) && StrLess(b.time, c.time) {
        StrLessTransitive(a.time, b.time, c.time);
      } else if a.time == b.time && b.time == c.time {
        StrLessTransitive(a.app, b.app, c.app);
      }
    }
  }

  lemma KeyLessTotal(a: Key, b: Key)
    requires a != b
    ensures KeyLess(a, b) || KeyLess(b, a)
  {
    if a.date == b.date {
      if a.time != b.time {
        StrLessTotal(a.time, b.time);
      } else {
        StrLessTotal(a.app, b.app);
      }
    }
  }

  /**
   * The library calls the parsers make, taken as given: `datetime.now()`,
   * `datetime.fromisoformat`, `int()` and `float()` on text, and
   * `strptime(…, "%d-%m-%Y")`. `None` stands for the exception.
   */
  datatype Env = Env(
    now: Moment,
    fromIso: string -> Option<Moment>,
    toInt: string -> Option<int>,
    toFloat: string -> Option<real>,
    toDate: string -> Option<Date>)
}
