/**
 * The defaults of `parsers/base_parser.py`: the statistics dictionary a
 * parser reports, and the pass-through `process_data`. The abstract
 * interface (`parse_file`, `get_supported_formats`, `can_parse`) is met by
 * the parser modules, each of which declares `SupportedFormats`, a decoder
 * and a `CanParse` predicate.
 */
module BaseParser {
  import opened Wrappers
  import opened Numeric

  /**
   * A `stats` dictionary: `{}`, the base form (`total_records` and three
   * rates), the form the CapFrame and Afterburner parsers compute (three
   * rates and two integer totals), or the generic parser's form from
   * `parsers/custom_parser.py`, of which only `total_records` is modelled.
   */
  datatype Stats =
    | NoStats
    | BaseStats(totalRecords: nat, avgFramerate: real, minFramerate: real, maxFramerate: real)
    | FpsStats(avgFramerate: real, minFramerate: real, maxFramerate: real, totalFrames: int, totalTime: int)
    | CustomStats(totalRecords: nat)

  /**
   * The AverageFramerate, MinFramerate and MaxFramerate columns of a frame,
   * `None` when the frame has no such column.
   */
  datatype Columns = Columns(avg: Option<seq<real>>, minFps: Option<seq<real>>, maxFps: Option<seq<real>>)

  /** Every column present has one entry per row. */
  predicate Fits(cols: Columns, n: nat) {
    && (cols.avg.Some? ==> |cols.avg.value| == n)
    && (cols.minFps.Some? ==> |cols.minFps.value| == n)
    && (cols.maxFps.Some? ==> |cols.maxFps.value| == n)
  }

  /** The default `calculate_stats` over a frame of `n` rows. */
  function CalculateStats(n: nat, cols: Columns): (s: Stats)
    requires Fits(cols, n)
    ensures s.NoStats? <==> n == 0
    ensures s.BaseStats? <==> n > 0
    ensures s.BaseStats? ==> s.totalRecords == n
    ensures s.BaseStats? && cols.avg.None? ==> s.avgFramerate == 0.0
    ensures s.BaseStats? && cols.minFps.None? ==> s.minFramerate == 0.0
    ensures s.BaseStats? && cols.maxFps.None? ==> s.maxFramerate == 0.0
    ensures s.BaseStats? && cols.minFps.Some? ==>
      s.minFramerate in cols.minFps.value && forall i :: 0 <= i < n ==> s.minFramerate <= cols.minFps.value[i]
    ensures s.BaseStats? && cols.maxFps.Some? ==>
      s.maxFramerate in cols.maxFps.value && forall i :: 0 <= i < n ==> cols.maxFps.value[i] <= s.maxFramerate
  {
    if n == 0 then NoStats
    else
      // `df.get(name, pd.Series([0]))` stands in a one-element column of 0 for a missing one.
      var avg := if cols.avg.None? then 0.0 else Mean(cols.avg.value);
      var lo := if cols.minFps.None? then 0.0 else MinOf(cols.minFps.value);
      var hi := if cols.maxFps.None? then 0.0 else MaxOf(cols.maxFps.value);
      BaseStats(n, avg, lo, hi)
  }

  /** The reported average rate lies between the smallest and largest entry of its column. */
  lemma AverageWithinColumn(n: nat, cols: Columns)
    requires Fits(cols, n) && n > 0 && cols.avg.Some?
    ensures MinOf(cols.avg.value) <= CalculateStats(n, cols).avgFramerate <= MaxOf(cols.avg.value)
  {
    MeanBounds(cols.avg.value);
  }

  /** The three frames `process_data` returns. */
  datatype Passed<T> = Passed(raw: seq<T>, processed: seq<T>, stats: Stats)

  /** The default `process_data`: the frame itself is both the raw and the processed view. */
  function DefaultProcess<T>(rows: seq<T>, cols: Columns): (p: Passed<T>)
    requires Fits(cols, |rows|)
    ensures p.raw == rows && p.processed == rows
    ensures p.stats.NoStats? <==> rows == []
    ensures p.stats.BaseStats? ==> p.stats.totalRecords == |rows|
  {
    Passed(rows, rows, CalculateStats(|rows|, cols))
  }
}
