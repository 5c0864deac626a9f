/**
 * The filter/aggregate pipeline that the `process_data` methods of
 * `parsers/capframe_parser.py` and `parsers/msi_afterburner_parser.py`
 * each spell out, written once and parameterised by their differences:
 *
 *  1. keep the rows whose TimeTaken is at least 80% of the mean TimeTaken
 *     of their (Date, Time, Application) group — CapFrame only when there
 *     is more than one row, Afterburner always;
 *  2. relabel Time as an hour: CapFrame appends " h", Afterburner keeps the
 *     first two characters and appends " h";
 *  3. when more than one row is left, keep the rows whose z-score of
 *     TimeTaken (sample standard deviation) is below 3;
 *  4. one row per (Date, Time, Application) holding the half-to-even
 *     rounded mean of every numeric column, in ascending key order —
 *     except that CapFrame truncates a single survivor instead.
 */
module Pipeline {
  import opened Wrappers
  import opened Text
  import opened Numeric
  import opened Benchmark
  import opened Outcome
  import opened BaseParser
  import opened Sequences

  /** The two parsers whose `process_data` this pipeline models. */
  datatype Variant = CapFrameVariant | MsiVariant

  /** `df[mask]`: the elements satisfying `p`, in order. */
  function Filter<T>(p: T -> bool, xs: seq<T>): (ys: seq<T>)
    ensures |ys| <= |xs|
    ensures forall y :: y in ys ==> y in xs && p(y)
    ensures forall x :: x in xs && p(x) ==> x in ys
  {
    if xs == [] then []
    else (if p(xs[0]) then [xs[0]] else []) + Filter(p, xs[1..])
  }

  lemma {:induction false} FilterAppend<T>(p: T -> bool, a: seq<T>, b: seq<T>)
    ensures Filter(p, a + b) == Filter(p, a) + Filter(p, b)
  {
    if a != [] {
      var head := if p(a[0]) then [a[0]] else [];
      HeadTail(a, b);
      FilterAppend(p, a[1..], b);
      Assoc(head, Filter(p, a[1..]), Filter(p, b));
    } else {
      assert a + b == b;
    }
  }

  /** A mask keeps every copy of a passing element and no copy of any other, so it never duplicates. */
  lemma {:induction false} FilterCounts<T>(p: T -> bool, xs: seq<T>)
    ensures forall x :: multiset(Filter(p, xs))[x] == if p(x) then multiset(xs)[x] else 0
    ensures multiset(Filter(p, xs)) <= multiset(xs)
  {
    if xs != [] {
      FilterCounts(p, xs[1..]);
      MultisetCons(xs);
    }
  }

  lemma {:induction false} FilterEmpty<T>(p: T -> bool, xs: seq<T>)
    requires Filter(p, xs) == []
    ensures forall i :: 0 <= i < |xs| ==> !p(xs[i])
  {
    if xs != [] {
      FilterEmpty(p, xs[1..]);
      assert forall i :: 1 <= i < |xs| ==> xs[i] == xs[1..][i - 1];
    }
  }

  lemma {:induction false} FilterNone<T>(p: T -> bool, xs: seq<T>)
    requires forall i :: 0 <= i < |xs| ==> !p(xs[i])
    ensures Filter(p, xs) == []
  {
    if xs != [] {
      FilterNone(p, xs[1..]);
    }
  }

  /** A property that every selected element has holds for every element of the result. */
  lemma {:induction false} FilterAll<T>(p: T -> bool, q: T -> bool, xs: seq<T>)
    requires forall i :: 0 <= i < |xs| && p(xs[i]) ==> q(xs[i])
    ensures forall j :: 0 <= j < |Filter(p, xs)| ==> q(Filter(p, xs)[j])
  {
    if xs != [] {
      FilterAll(p, q, xs[1..]);
      assert forall i :: 1 <= i < |xs| ==> xs[i] == xs[1..][i - 1];
    }
  }

  /** One numeric column of `rows`, read as floats. */
  function ColumnOf(rows: seq<Record>, c: Column): (xs: seq<real>)
    ensures |xs| == |rows|
    ensures forall i :: 0 <= i < |rows| ==> xs[i] == Value(rows[i], c)
  {
    Map((r: Record) => Value(r, c), rows)
  }

  /** The TimeTaken column, which both filters test. */
  function Durations(rows: seq<Record>): (ts: seq<real>)
    ensures |ts| == |rows|
    ensures forall i :: 0 <= i < |rows| ==> ts[i] == rows[i].timeTaken
  {
    ColumnOf(rows, TimeTaken)
  }

  /** Whether a row belongs to the group of `k`. */
  function InGroup(k: Key): Record -> bool {
    (r: Record) => KeyOf(r) == k
  }

  /** The rows of one (Date, Time, Application) group, in order. */
  function Members(rows: seq<Record>, k: Key): (g: seq<Record>)
    ensures forall r :: r in g <==> r in rows && KeyOf(r) == k
  {
    Filter(InGroup(k), rows)
  }

  /** The keys that occur in `rows`. */
  function KeySet(rows: seq<Record>): set<Key> {
    set r | r in rows :: KeyOf(r)
  }

  /**
   * The 80% rule of `groupby(...).transform("mean")`: the row's TimeTaken is
   * at least 0.8 times the mean TimeTaken of its group.
   */
  predicate RatioKeep(rows: seq<Record>, r: Record) {
    var g := Members(rows, KeyOf(r));
    g != [] && r.timeTaken >= Mean(Durations(g)) * 0.8
  }

  function RatioFilter(rows: seq<Record>): (kept: seq<Record>)
    ensures |kept| <= |rows|
    ensures forall r :: r in kept <==> r in rows && RatioKeep(rows, r)
  {
    Filter((r: Record) => RatioKeep(rows, r), rows)
  }

  /** The 80% rule for one row depends only on the rows of its own group. */
  lemma RatioLocal(rows: seq<Record>, other: seq<Record>, r: Record)
    requires forall i :: 0 <= i < |other| ==> KeyOf(other[i]) != KeyOf(r)
    ensures RatioKeep(rows + other, r) == RatioKeep(rows, r)
  {
    var p := InGroup(KeyOf(r));
    FilterAppend(p, rows, other);
    FilterNone(p, other);
    assert Members(rows + other, KeyOf(r)) == Members(rows, KeyOf(r));
  }

  /**
   * With non-negative durations the 80% rule never empties a group: the
   * longest run of every group is at least the group's mean.
   */
  lemma RatioKeepsEveryGroup(rows: seq<Record>)
    requires forall r :: r in rows ==> r.timeTaken >= 0.0
    ensures KeySet(RatioFilter(rows)) == KeySet(rows)
  {
    forall k | k in KeySet(rows)
      ensures k in KeySet(RatioFilter(rows))
    {
      var g := Members(rows, k);
      var w :| w in rows && KeyOf(w) == k;
      assert w in g;
      var ts := Durations(g);
      var i :| 0 <= i < |ts| && ts[i] == MaxOf(ts);
      MeanBounds(ts);
      assert g[i] in g;
      assert RatioKeep(rows, g[i]);
    }
  }

  /** The Time label after filtering. */
  function HourLabel(v: Variant, time: string): (h: string)
    ensures EndsWith(h, " h")
  {
    match v
    case CapFrameVariant => time + " h"
    case MsiVariant => Take(time, 2) + " h"
  }

  function Retime(v: Variant, r: Record): Record {
    r.(time := HourLabel(v, r.time))
  }

  /**
   * The identity, as a solver aid only: `Sq` is written `d * Id(d)` so that
   * the verifier treats the square as a product of two separate terms, and
   * `SqIsSquare` recovers `d * d`, the `** 2` of the source.
   */
  function Id(x: real): real {
    x
  }

  /** Two factors of the same sign have a positive product. */
  lemma ProductPositive(a: real, b: real)
    requires (a > 0.0 && b > 0.0) || (a < 0.0 && b < 0.0)
    ensures a * b > 0.0
  {
  }

  /** The square of a deviation: never negative, and positive away from zero. */
  function Sq(d: real): (r: real)
    ensures r >= 0.0
    ensures d != 0.0 ==> r > 0.0
  {
    if d != 0.0 then ProductPositive(d, Id(d)); d * Id(d) else 0.0
  }

  /** `Sq` is the square. */
  lemma SqIsSquare(d: real)
    ensures Sq(d) == d * d
  {
  }

  /** The squared distance of each value from the mean. */
  function SquaredDeviations(ts: seq<real>): (sq: seq<real>)
    requires ts != []
    ensures |sq| == |ts|
    ensures forall i :: 0 <= i < |ts| ==> sq[i] == Sq(ts[i] - Mean(ts))
  {
    var m := Mean(ts);
    Map((t: real) => Sq(t - m), ts)
  }

  /** Sample variance (pandas' `std()` squared): the squared deviations summed over n - 1. */
  function Variance(ts: seq<real>): (v: real)
    requires |ts| > 1
    ensures v >= 0.0
  {
    var sq := SquaredDeviations(ts);
    SumNonNegative(sq);
    Sum(sq) / (|ts| - 1) as real
  }

  /**
   * `|t - mean| / std < 3`, squared so that no root is needed: the test
   * built from the durations of `rows`. Equal durations give `0 < 0`, just
   * as the code's `NaN < 3` is false.
   */
  function ZTest(rows: seq<Record>): Record -> bool
    requires |rows| > 1
  {
    var m := Mean(Durations(rows));
    var v := Variance(Durations(rows));
    (r: Record) => Sq(r.timeTaken - m) < 9.0 * v
  }

  /** The z-score cut, applied only when more than one row is left. */
  function ZFilter(rows: seq<Record>): (kept: seq<Record>)
    ensures |kept| <= |rows|
    ensures |rows| <= 1 ==> kept == rows
  {
    if |rows| > 1 then Filter(ZTest(rows), rows) else rows
  }

  /** When every duration is the same, the z-score cut drops every row. */
  lemma ZFilterAllEqual(rows: seq<Record>)
    requires |rows| > 1 && AllEqual(Durations(rows))
    ensures ZFilter(rows) == []
  {
    var ts := Durations(rows);
    ZeroVariance(ts);
    forall i | 0 <= i < |rows|
      ensures !ZTest(rows)(rows[i])
    {
      assert rows[i].timeTaken == ts[i];
    }
    FilterNone(ZTest(rows), rows);
  }

  /** Equal values sit at their mean and have no variance. */
  lemma ZeroVariance(ts: seq<real>)
    requires |ts| > 1 && AllEqual(ts)
    ensures Variance(ts) == 0.0
    ensures forall i :: 0 <= i < |ts| ==> ts[i] == Mean(ts)
  {
    MeanConstant(ts, ts[0]);
    var sq := SquaredDeviations(ts);
    assert forall i :: 0 <= i < |sq| ==> sq[i] == 0.0;
    SumBounds(sq, 0.0, 0.0);
  }

  /**
   * When the durations differ, the z-score cut keeps at least one row: the
   * squared z-scores add up to n - 1, so they cannot all reach 9.
   */
  lemma ZFilterKeepsSome(rows: seq<Record>)
    requires |rows| > 1 && !AllEqual(Durations(rows))
    ensures ZFilter(rows) != []
  {
    var ts := Durations(rows);
    PositiveSpread(ts);
    var i := SomeBelowNine(SquaredDeviations(ts), Variance(ts));
    ZTestPasses(rows, i);
    assert rows[i] in rows;
  }

  /** A row whose squared deviation is below nine variances passes the z-score test. */
  lemma ZTestPasses(rows: seq<Record>, i: nat)
    requires |rows| > 1 && i < |rows|
    requires SquaredDeviations(Durations(rows))[i] < 9.0 * Variance(Durations(rows))
    ensures ZTest(rows)(rows[i])
  {
    var ts := Durations(rows);
    assert SquaredDeviations(ts)[i] == Sq(rows[i].timeTaken - Mean(ts));
  }

  /** Values that are not all equal have a positive sum of squared deviations. */
  lemma PositiveSpread(ts: seq<real>)
    requires ts != [] && !AllEqual(ts)
    ensures Sum(SquaredDeviations(ts)) > 0.0
  {
    var j := Deviant(ts);
    SumPositive(SquaredDeviations(ts), j);
  }

  /** Non-negative values whose sum is `v * (n - 1)` do not all reach `9 * v`. */
  lemma SomeBelowNine(sq: seq<real>, v: real) returns (i: nat)
    requires |sq| > 1 && Sum(sq) > 0.0
    requires v == Sum(sq) / (|sq| - 1) as real
    ensures i < |sq| && sq[i] < 9.0 * v
  {
    var n := |sq| as real;
    var s := Sum(sq);
    assert v * (n - 1.0) == s;
    if forall k :: 0 <= k < |sq| ==> 9.0 * v <= sq[k] {
      SumBounds(sq, 9.0 * v, MaxOf(sq));
    }
    i :| 0 <= i < |sq| && sq[i] < 9.0 * v;
  }

  /** A value that differs from the mean, when the values are not all equal. */
  lemma Deviant(ts: seq<real>) returns (j: nat)
    requires ts != [] && !AllEqual(ts)
    ensures j < |ts| && ts[j] != Mean(ts)
  {
    var i :| 0 <= i < |ts| && ts[i] != ts[0];
    j := if ts[i] != Mean(ts) then i else 0;
  }

  function Retimed(v: Variant, rows: seq<Record>): (out: seq<Record>)
    ensures |out| == |rows|
    ensures forall i :: 0 <= i < |rows| ==> out[i] == Retime(v, rows[i])
  {
    Map((r: Record) => Retime(v, r), rows)
  }

  /** Steps 1-3: the rows that reach the grouping, relabelled. */
  function Survivors(v: Variant, rows: seq<Record>): (s: seq<Record>)
    ensures |s| <= |rows|
  {
    var kept := if v.MsiVariant? || |rows| > 1 then RatioFilter(rows) else rows;
    ZFilter(Retimed(v, kept))
  }

  /** Consecutive keys in strictly ascending order. */
  predicate Ascending(ks: seq<Key>) {
    forall i :: 0 < i < |ks| ==> KeyLess(ks[i - 1], ks[i])
  }

  function InsertKey(k: Key, ks: seq<Key>): (r: seq<Key>)
    requires Ascending(ks)
    ensures Ascending(r)
    ensures forall x :: x in r <==> x == k || x in ks
    ensures |r| <= |ks| + 1
    ensures r != [] && (r[0] == k || (ks != [] && r[0] == ks[0]))
  {
    if ks == [] then [k]
    else if k == ks[0] then ks
    else if KeyLess(k, ks[0]) then [k] + ks
    else
      KeyLessTotal(k, ks[0]);
      [ks[0]] + InsertKey(k, ks[1..])
  }

  /** The distinct keys of `rows` in ascending order, as `groupby` then `sort_values` lists them. */
  function Keys(rows: seq<Record>): (ks: seq<Key>)
    ensures Ascending(ks)
    ensures forall k :: k in ks <==> k in KeySet(rows)
    ensures |ks| <= |rows|
  {
    if rows == [] then []
    else
      var init := rows[..|rows| - 1];
      assert rows == init + [rows[|rows| - 1]];
      InsertKey(KeyOf(rows[|rows| - 1]), Keys(init))
  }

  lemma MembersNonEmpty(rows: seq<Record>, k: Key)
    requires k in KeySet(rows)
    ensures Members(rows, k) != []
  {
    var r :| r in rows && KeyOf(r) == k;
    assert r in Members(rows, k);
  }

  /** `.mean().round()` of one column of a non-empty group. */
  function RoundedMean(g: seq<Record>, c: Column): (n: int)
    requires g != []
    ensures Mean(ColumnOf(g, c)) - 0.5 <= n as real <= Mean(ColumnOf(g, c)) + 0.5
  {
    RoundHalfEven(Mean(ColumnOf(g, c)))
  }

  /**
   * `.mean().round().astype(int)` of one group: every numeric column is its
   * group's mean rounded half to even, so within one half of that mean.
   */
  function AggregateOf(rows: seq<Record>, k: Key): (a: Aggregate)
    requires Members(rows, k) != []
    ensures AggregateKey(a) == k
    ensures forall c :: Cell(a, c) == RoundedMean(Members(rows, k), c)
    ensures forall c :: Mean(ColumnOf(Members(rows, k), c)) - 0.5 <= Cell(a, c) as real <= Mean(ColumnOf(Members(rows, k), c)) + 0.5
  {
    var g := Members(rows, k);
    var a := Aggregate(k.date, k.time, k.app,
      RoundedMean(g, Frames), RoundedMean(g, TimeTaken), RoundedMean(g, AverageFramerate),
      RoundedMean(g, MinFramerate), RoundedMean(g, MaxFramerate),
      RoundedMean(g, Low1Percent), RoundedMean(g, Low01Percent));
    RoundedCells(g, a);
    a
  }

  /** An aggregate whose fields are the rounded column means of `g` holds each of them in its cell. */
  lemma RoundedCells(g: seq<Record>, a: Aggregate)
    requires g != []
    requires a.frames == RoundedMean(g, Frames) && a.timeTaken == RoundedMean(g, TimeTaken)
    requires a.avg == RoundedMean(g, AverageFramerate)
    requires a.minFps == RoundedMean(g, MinFramerate) && a.maxFps == RoundedMean(g, MaxFramerate)
    requires a.low1 == RoundedMean(g, Low1Percent) && a.low01 == RoundedMean(g, Low01Percent)
    ensures forall c :: Cell(a, c) == RoundedMean(g, c)
  {
    forall c ensures Cell(a, c) == RoundedMean(g, c) {
      match c
      case Frames =>
      case TimeTaken =>
      case AverageFramerate =>
      case MinFramerate =>
      case MaxFramerate =>
      case Low1Percent =>
      case Low01Percent =>
    }
  }

  function Aggregates(rows: seq<Record>, ks: seq<Key>): (view: seq<Aggregate>)
    requires forall k :: k in ks ==> k in KeySet(rows)
    ensures |view| == |ks|
    ensures forall i :: 0 <= i < |ks| ==> AggregateKey(view[i]) == ks[i]
  {
    if ks == [] then []
    else
      MembersNonEmpty(rows, ks[0]);
      [AggregateOf(rows, ks[0])] + Aggregates(rows, ks[1..])
  }

  /** Step 4: one aggregated row per group. */
  function Group(rows: seq<Record>): (view: seq<Aggregate>)
    ensures |view| == |Keys(rows)| <= |rows|
    ensures forall i :: 0 <= i < |view| ==> AggregateKey(view[i]) == Keys(rows)[i]
  {
    Aggregates(rows, Keys(rows))
  }

  /** The grouped view holds one row per key, in strictly ascending key order. */
  lemma GroupOrder(rows: seq<Record>)
    ensures forall i :: 0 < i < |Group(rows)| ==> KeyLess(AggregateKey(Group(rows)[i - 1]), AggregateKey(Group(rows)[i]))
    ensures forall k :: (exists i :: 0 <= i < |Group(rows)| && AggregateKey(Group(rows)[i]) == k) <==> k in KeySet(rows)
  {
    var view := Group(rows);
    var ks := Keys(rows);
    forall k | k in KeySet(rows)
      ensures exists i :: 0 <= i < |view| && AggregateKey(view[i]) == k
    {
      var i :| 0 <= i < |ks| && ks[i] == k;
      assert AggregateKey(view[i]) == k;
    }
  }

  /** The element of `Aggregates` at index `i` is the aggregate of the `i`-th key. */
  lemma {:induction false} AggregatesAt(rows: seq<Record>, ks: seq<Key>, i: nat)
    requires forall k :: k in ks ==> k in KeySet(rows)
    requires i < |ks|
    ensures Members(rows, ks[i]) != []
    ensures Aggregates(rows, ks)[i] == AggregateOf(rows, ks[i])
  {
    MembersNonEmpty(rows, ks[i]);
    if i > 0 {
      AggregatesAt(rows, ks[1..], i - 1);
    }
  }

  /**
   * Every numeric column of an aggregated row is a rounded mean, never a sum:
   * it stays within any integer bounds of that column in its group.
   */
  lemma GroupColumnWithin(rows: seq<Record>, i: nat, c: Column, lo: int, hi: int)
    requires i < |Group(rows)|
    requires forall j :: 0 <= j < |rows| && KeyOf(rows[j]) == Keys(rows)[i] ==> lo as real <= Value(rows[j], c) <= hi as real
    ensures lo <= Cell(Group(rows)[i], c) <= hi
  {
    var k := Keys(rows)[i];
    AggregatesAt(rows, Keys(rows), i);
    MembersWithin(rows, k, c, lo, hi);
    RoundedMeanWithin(ColumnOf(Members(rows, k), c), lo, hi);
  }

  /** Bounds on a column of the rows with key `k` hold for that column of their group. */
  lemma MembersWithin(rows: seq<Record>, k: Key, c: Column, lo: int, hi: int)
    requires forall j :: 0 <= j < |rows| && KeyOf(rows[j]) == k ==> lo as real <= Value(rows[j], c) <= hi as real
    ensures forall j :: 0 <= j < |Members(rows, k)| ==> lo as real <= ColumnOf(Members(rows, k), c)[j] <= hi as real
  {
    var within := (r: Record) => lo as real <= Value(r, c) <= hi as real;
    FilterAll(InGroup(k), within, rows);
  }

  /** Each numeric column of the `i`-th aggregated row is within one half of its group's mean. */
  lemma GroupColumnMean(rows: seq<Record>, i: nat, c: Column)
    requires i < |Group(rows)|
    ensures Members(rows, Keys(rows)[i]) != []
    ensures var m := Mean(ColumnOf(Members(rows, Keys(rows)[i]), c));
      m - 0.5 <= Cell(Group(rows)[i], c) as real <= m + 0.5
  {
    AggregatesAt(rows, Keys(rows), i);
  }

  /** The rounded mean of values between two integers lies between them. */
  lemma RoundedMeanWithin(xs: seq<real>, lo: int, hi: int)
    requires xs != []
    requires forall j :: 0 <= j < |xs| ==> lo as real <= xs[j] <= hi as real
    ensures lo <= RoundHalfEven(Mean(xs)) <= hi
  {
    SumBounds(xs, lo as real, hi as real);
    QuotientBounds(Sum(xs), |xs| as real, lo as real, hi as real);
    RoundBetween(Mean(xs), lo, hi);
  }

  /** The single-survivor branch of CapFrame: every numeric column cast to `int`, truncating. */
  function Truncated(r: Record): (a: Aggregate)
    ensures AggregateKey(a) == KeyOf(r) && a.frames == r.frames
  {
    Aggregate(r.date, r.time, r.app, r.frames, Trunc(r.timeTaken), Trunc(r.avg),
              Trunc(r.minFps), Trunc(r.maxFps), Trunc(r.low1), Trunc(r.low01))
  }

  /** `calculate_stats` of the CapFrame and Afterburner parsers. */
  function StatsOf(rows: seq<Record>): (s: Stats)
    ensures s.NoStats? <==> rows == []
    ensures s.NoStats? || s.FpsStats?
    ensures s.FpsStats? ==> forall i :: 0 <= i < |rows| ==> s.minFramerate <= rows[i].minFps
    ensures s.FpsStats? ==> forall i :: 0 <= i < |rows| ==> rows[i].maxFps <= s.maxFramerate
    ensures s.FpsStats? ==> exists i :: 0 <= i < |rows| && s.minFramerate == rows[i].minFps
    ensures s.FpsStats? ==> exists i :: 0 <= i < |rows| && s.maxFramerate == rows[i].maxFps
    ensures s.FpsStats? ==> MinOf(ColumnOf(rows, AverageFramerate)) <= s.avgFramerate <= MaxOf(ColumnOf(rows, AverageFramerate))
  {
    if rows == [] then NoStats
    else
      var avgs := ColumnOf(rows, AverageFramerate);
      var lows := ColumnOf(rows, MinFramerate);
      var highs := ColumnOf(rows, MaxFramerate);
      ColumnExtremes(rows, MinFramerate);
      ColumnExtremes(rows, MaxFramerate);
      MeanBounds(avgs);
      FpsStats(Mean(avgs), MinOf(lows), MaxOf(highs),
               Trunc(Sum(ColumnOf(rows, Frames))), Trunc(Sum(Durations(rows))))
  }

  /** The minimum and the maximum of a column are cells of that column and bound it. */
  lemma ColumnExtremes(rows: seq<Record>, c: Column)
    requires rows != []
    ensures forall i :: 0 <= i < |rows| ==> MinOf(ColumnOf(rows, c)) <= Value(rows[i], c) <= MaxOf(ColumnOf(rows, c))
    ensures exists i :: 0 <= i < |rows| && MinOf(ColumnOf(rows, c)) == Value(rows[i], c)
    ensures exists i :: 0 <= i < |rows| && MaxOf(ColumnOf(rows, c)) == Value(rows[i], c)
  {
    var xs := ColumnOf(rows, c);
    var i :| 0 <= i < |xs| && xs[i] == MinOf(xs);
    var j :| 0 <= j < |xs| && xs[j] == MaxOf(xs);
  }

  /** The reported average is the mean of the AverageFramerate column, so equal averages are reported as that value. */
  lemma StatsAverageConstant(rows: seq<Record>, v: real)
    requires rows != []
    requires forall i :: 0 <= i < |rows| ==> rows[i].avg == v
    ensures StatsOf(rows).avgFramerate == v
  {
    MeanConstant(ColumnOf(rows, AverageFramerate), v);
  }

  /** The reported totals are the integer parts of the column sums. */
  lemma StatsTotals(rows: seq<Record>)
    requires rows != []
    requires forall i :: 0 <= i < |rows| ==> rows[i].frames >= 0 && rows[i].timeTaken >= 0.0
    ensures var s := StatsOf(rows);
      && s.totalFrames as real <= Sum(ColumnOf(rows, Frames)) < s.totalFrames as real + 1.0
      && s.totalTime as real <= Sum(Durations(rows)) < s.totalTime as real + 1.0
  {
    SumNonNegative(ColumnOf(rows, Frames));
    SumNonNegative(Durations(rows));
  }

  /** The three frames `process_data` returns. */
  datatype Processed = Processed(raw: seq<Record>, view: seq<Aggregate>, stats: Stats)

  /** `process_data` of the CapFrame (`CapFrameVariant`) or Afterburner (`MsiVariant`) parser. */
  function Process(v: Variant, rows: seq<Record>): (p: Processed)
    ensures p.raw == rows
    ensures rows == [] ==> p.view == [] && p.stats == NoStats
    ensures |p.view| <= |rows|
    ensures v.CapFrameVariant? ==> (p.stats.NoStats? <==> rows == [])
    ensures v.MsiVariant? ==> (p.stats.NoStats? <==> p.view == [])
    ensures v.CapFrameVariant? && rows != [] && p.view == [] ==> p.stats == StatsOf(rows)
    ensures p.view != [] ==> p.stats == StatsOf(Map(AsRecord, p.view))
  {
    if rows == [] then Processed(rows, [], NoStats)
    else
      var s := Survivors(v, rows);
      var view := if v.CapFrameVariant? && |s| == 1 then [Truncated(s[0])] else Group(s);
      var basis := if v.CapFrameVariant? && view == [] then rows else Map(AsRecord, view);
      Processed(rows, view, StatsOf(basis))
  }

  /** A processed view with more than one survivor is ordered by strictly ascending key. */
  lemma ProcessOrdered(v: Variant, rows: seq<Record>)
    requires rows != []
    requires !(v.CapFrameVariant? && |Survivors(v, rows)| == 1)
    ensures Process(v, rows).view == Group(Survivors(v, rows))
    ensures var view := Process(v, rows).view;
      forall i :: 0 < i < |view| ==> KeyLess(AggregateKey(view[i - 1]), AggregateKey(view[i]))
  {
    GroupOrder(Survivors(v, rows));
  }

  /** A lone CapFrame run is relabelled and truncated; it is never filtered. */
  lemma CapFrameSingleRow(r: Record)
    ensures Process(CapFrameVariant, [r]).view == [Truncated(Retime(CapFrameVariant, r))]
  {
    assert Retimed(CapFrameVariant, [r]) == [Retime(CapFrameVariant, r)];
  }

  /** A lone Afterburner run faces the 80% rule against itself, which it passes exactly when its duration is not negative. */
  lemma MsiSingleRow(r: Record)
    ensures Process(MsiVariant, [r]).view != [] <==> r.timeTaken >= 0.0
  {
    var g := Members([r], KeyOf(r));
    assert r in g;
    assert g == [r];
    MeanConstant(Durations(g), r.timeTaken);
    var kept := RatioFilter([r]);
    if r.timeTaken >= 0.0 {
      assert r in kept;
      assert kept == [r];
      var timed := Retimed(MsiVariant, kept);
      assert timed == [Retime(MsiVariant, r)];
      assert KeyOf(timed[0]) in KeySet(timed);
    } else {
      assert kept == [];
    }
  }

  /** The header line `to_csv` writes for a processed view. */
  const CsvHeader: string := "Date,Time,Application,Frames,TimeTaken,AverageFramerate,MinFramerate,MaxFramerate,Low1Percent,Low01Percent"

  /**
   * The CSV report: nothing when the processed view is empty, otherwise the
   * header and one line per row; `render` is the layout of one row.
   */
  function CsvLines(view: seq<Aggregate>, render: Aggregate -> string): (lines: seq<string>)
    ensures lines == [] <==> view == []
    ensures view != [] ==> |lines| == |view| + 1 && lines[0] == CsvHeader
    ensures view != [] ==> forall i :: 0 <= i < |view| ==> lines[i + 1] == render(view[i])
  {
    if view == [] then [] else [CsvHeader] + Map(render, view)
  }
}
