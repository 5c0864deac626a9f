/**
 * The CapFrameX decoder of `parsers/capframe_parser.py`: from the decoded
 * JSON document to exactly one benchmark row per file.
 *
 * The document is followed the way Python's `.get`, truthiness, `extend`
 * and the `try/except` around each run treat it: a run that is not an
 * object, or whose CaptureData is not an object, is skipped; a
 * TimeInSeconds that is a number is skipped; a TimeInSeconds that adds
 * non-numeric entries makes the later sort or subtraction raise.
 */
module CapFrameParser {
  import opened Wrappers
  import opened Text
  import opened Numeric
  import opened Json
  import opened Benchmark
  import Registry
  import opened Sequences

  datatype ParseError =
    | InvalidJson   // json.load raised
    | NotAnObject   // the document has no .get
    | NoRuns        // Runs missing or falsy
    | BadInfo       // Info is not an object, or ProcessName is not a string
    | NoFrameData   // fewer than two timestamps, or no positive gap between them
    | Malformed     // a non-numeric timestamp, or Runs not iterable

  function SupportedFormats(): seq<string> {
    [".json"]
  }

  /** The numeric values of a JSON array, if every entry is a number or a boolean. */
  function NumericItems(items: seq<Json>): (r: Option<seq<real>>)
    ensures r.Some? ==> |r.value| == |items|
    ensures r.Some? <==> forall i :: 0 <= i < |items| ==> AsNumber(items[i]).Some?
    ensures r.Some? ==> forall i :: 0 <= i < |items| ==> r.value[i] == AsNumber(items[i]).value
  {
    if items == [] then Some([])
    else match (AsNumber(items[0]), NumericItems(items[1..]))
      case (Some(x), Some(rest)) => Some([x] + rest)
      case _ =>
        assert forall i :: 1 <= i < |items| ==> items[i] == items[1..][i - 1];
        None
  }

  /** What one run adds to `all_time_values`. */
  datatype Capture =
    | Nothing                  // skipped, or nothing to add
    | Samples(values: seq<real>)
    | Poisoned(count: nat)     // entries added that are not numbers

  /** `run.get("CaptureData", {}).get("TimeInSeconds", [])` and the `extend` of lines 62-67. */
  function CaptureOf(run: Json): (c: Capture)
    ensures c.Samples? ==> c.values != []
    ensures c.Poisoned? ==> c.count > 0
  {
    if !run.JObj? then Nothing
    else
      var data := Get(run.fields, "CaptureData", JObj(map[]));
      if !data.JObj? then Nothing
      else
        var times := Get(data.fields, "TimeInSeconds", JArr([]));
        if !Truthy(times) then Nothing
        else match times
          case JArr(items) =>
            (match NumericItems(items)
             case Some(v) => Samples(v)
             case None => Poisoned(|items|))
          case JStr(s) => Poisoned(|s|)
          case JObj(m) => Poisoned(|m|)
          case _ => Nothing
  }

  /** The state of the run loop: the timestamps, the count of non-numeric entries, `total_time_taken`. */
  datatype Gathered = Gathered(values: seq<real>, extra: nat, total: real)

  function Step(g: Gathered, run: Json): Gathered {
    match CaptureOf(run)
    case Nothing => g
    case Samples(v) => Gathered(g.values + v, g.extra, g.total + v[|v| - 1])
    case Poisoned(n) => Gathered(g.values, g.extra + n, g.total)
  }

  /** The run loop of lines 60-70, run by run. */
  function Gather(runs: seq<Json>): Gathered {
    if runs == [] then Gathered([], 0, 0.0)
    else Step(Gather(runs[..|runs| - 1]), runs[|runs| - 1])
  }

  /** Runs contribute independently and in order: timestamps are concatenated, final timestamps summed. */
  lemma {:induction false} GatherAppend(a: seq<Json>, b: seq<Json>)
    ensures Gather(a + b).values == Gather(a).values + Gather(b).values
    ensures Gather(a + b).extra == Gather(a).extra + Gather(b).extra
    ensures Gather(a + b).total == Gather(a).total + Gather(b).total
  {
    if b == [] {
      assert a + b == a;
    } else {
      var b' := b[..|b| - 1];
      InitLast(a, b);
      GatherAppend(a, b');
    }
  }

  /** A run that yields nothing leaves the gathered data as if it were absent. */
  lemma SkippedRunContributesNothing(a: seq<Json>, run: Json, b: seq<Json>)
    requires CaptureOf(run) == Nothing
    ensures Gather(a + [run] + b) == Gather(a + b)
  {
    GatherAppend(a + [run], b);
    GatherAppend(a, [run]);
    GatherAppend(a, b);
    assert Gather([run]) == Step(Gather([]), run) by {
      assert [run][..0] == [];
    }
  }

  /** The gathered data of a single run that holds numeric timestamps. */
  lemma GatherSingle(run: Json)
    requires CaptureOf(run).Samples?
    ensures Gather([run]).values == CaptureOf(run).values
    ensures Gather([run]).total == CaptureOf(run).values[|CaptureOf(run).values| - 1]
  {
    assert [run][..0] == [];
  }

  /** `1.0 / delta` for each strictly positive gap between consecutive timestamps (lines 78-82). */
  function Rates(ts: seq<real>): (fps: seq<real>)
    ensures |fps| <= if ts == [] then 0 else |ts| - 1
    ensures forall i :: 0 <= i < |fps| ==> fps[i] > 0.0
  {
    if |ts| < 2 then []
    else
      var delta := ts[|ts| - 1] - ts[|ts| - 2];
      Rates(ts[..|ts| - 1]) + (if delta > 0.0 then [1.0 / delta] else [])
  }

  /** Sorted timestamps give no rate exactly when they are all equal. */
  lemma {:induction false} RatesEmptyIff(ts: seq<real>)
    requires Sorted(ts)
    ensures Rates(ts) == [] <==> AllEqual(ts)
  {
    if |ts| >= 2 {
      var init := ts[..|ts| - 1];
      RatesEmptyIff(init);
      assert forall i :: 0 <= i < |init| ==> init[i] == ts[i];
      if Rates(ts) == [] {
        assert ts[|ts| - 1] == ts[|ts| - 2];
      }
    }
  }

  /** The document fields read before the run loop (lines 27-54). */
  datatype Header = Header(runs: Json, app: string, moment: Moment)

  /** `datetime.fromisoformat` on CreationDate, a trailing Z read as +00:00; the clock when absent or unreadable. */
  function CreationMoment(creation: Json, env: Env): Moment {
    match creation
    case JStr(s) =>
      if s == [] then env.now
      else
        var iso := if EndsWith(s, "Z") then s[..|s| - 1] + "+00:00" else s;
        env.fromIso(iso).GetOr(env.now)
    case _ => env.now
  }

  /** An absent, non-string or empty CreationDate gives the clock reading. */
  lemma CreationMomentFallback(creation: Json, env: Env)
    requires !creation.JStr? || creation.s == []
    ensures CreationMoment(creation, env) == env.now
  {
  }

  /** A CreationDate ending in "Z" is read with that "Z" replaced by "+00:00"; the clock when that does not parse. */
  lemma CreationMomentZulu(s: string, env: Env)
    ensures CreationMoment(JStr(s + "Z"), env) ==
      match env.fromIso(s + "+00:00") case Some(m) => m case None => env.now
  {
    var t := s + "Z";
    assert EndsWith(t, "Z") by { assert t[|t| - 1..] == "Z"; }
    assert t[..|t| - 1] == s;
  }

  /** Any other non-empty CreationDate is read as written; the clock when it does not parse. */
  lemma CreationMomentPlain(s: string, env: Env)
    requires s != [] && !EndsWith(s, "Z")
    ensures CreationMoment(JStr(s), env) ==
      match env.fromIso(s) case Some(m) => m case None => env.now
  {
  }

  function ReadHeader(file: Option<Json>, env: Env): Result<Header, ParseError> {
    if file.None? then Err(InvalidJson)
    else if !file.value.JObj? then Err(NotAnObject)
    else
      var data := file.value.fields;
      var info := Get(data, "Info", JObj(map[]));
      var runs := Get(data, "Runs", JArr([]));
      if !Truthy(runs) then Err(NoRuns)
      else if !info.JObj? then Err(BadInfo)
      else
        var name := Get(info.fields, "ProcessName", JStr("Unknown"));
        if !name.JStr? then Err(BadInfo)
        else Ok(Header(runs, RemoveAll(name.s, ".exe"), CreationMoment(Get(info.fields, "CreationDate", JStr("")), env)))
  }

  /** The row built from the sorted timestamps (lines 72-111). */
  function Summarise(g: Gathered, h: Header): Result<seq<Record>, ParseError> {
    if |g.values| + g.extra <= 1 then Err(NoFrameData)
    else if g.extra > 0 then Err(Malformed)
    else
      var fps := Rates(Sort(g.values));
      if fps == [] then Err(NoFrameData)
      else
        var sorted := Sort(fps);
        Ok([Record(h.moment.date, TwoDigits(h.moment.hour), h.app, |g.values|, g.total,
                   Mean(fps), MinOf(fps), MaxOf(fps), sorted[|fps| / 100], sorted[|fps| / 1000])])
  }

  /** `parse_file` after `json.load`. */
  function Decode(file: Option<Json>, env: Env): Result<seq<Record>, ParseError> {
    match ReadHeader(file, env)
    case Err(e) => Err(e)
    case Ok(h) =>
      match h.runs
      case JArr(items) => Summarise(Gather(items), h)
      case JObj(_) => Err(NoFrameData)  // iterating an object yields its keys: every run is skipped
      case JStr(_) => Err(NoFrameData)  // iterating a string yields characters: every run is skipped
      case _ => Err(Malformed)          // a number or `true` cannot be iterated
  }

  lemma GatherPrefix(runs: seq<Json>, i: nat)
    requires i < |runs|
    ensures Gather(runs[..i + 1]) == Step(Gather(runs[..i]), runs[i])
  {
    assert runs[..i + 1][..i] == runs[..i];
  }

  lemma RatesPrefix(ts: seq<real>, i: nat)
    requires 1 <= i < |ts|
    ensures Rates(ts[..i + 1]) == Rates(ts[..i]) + (if ts[i] - ts[i - 1] > 0.0 then [1.0 / (ts[i] - ts[i - 1])] else [])
  {
    assert ts[..i + 1][..i] == ts[..i];
  }

  /** The run loop of `parse_file`: extends the timestamps and adds each run's final one. */
  method GatherRuns(runs: seq<Json>) returns (all: seq<real>, extra: nat, total: real)
    ensures Gathered(all, extra, total) == Gather(runs)
  {
    all, extra, total := [], 0, 0.0;
    for i := 0 to |runs|
      invariant Gathered(all, extra, total) == Gather(runs[..i])
    {
      GatherPrefix(runs, i);
      match CaptureOf(runs[i]) {
        case Nothing =>
        case Samples(v) =>
          all := all + v;
          total := total + v[|v| - 1];
        case Poisoned(n) =>
          extra := extra + n;
      }
    }
    assert runs[..|runs|] == runs;
  }

  /** The gap loop of `parse_file`: one rate per strictly positive gap. */
  method RatesOf(ts: seq<real>) returns (fps: seq<real>)
    ensures fps == Rates(ts)
  {
    fps := [];
    if |ts| < 2 {
      return;
    }
    for i := 1 to |ts|
      invariant fps == Rates(ts[..i])
    {
      RatesPrefix(ts, i);
      var delta := ts[i] - ts[i - 1];
      if delta > 0.0 {
        fps := fps + [1.0 / delta];
      }
    }
    assert ts[..|ts|] == ts;
  }

  /** `CapFrameParser.parse_file`, as written. */
  method ParseFile(file: Option<Json>, env: Env) returns (r: Result<seq<Record>, ParseError>)
    ensures r == Decode(file, env)
  {
    var header := ReadHeader(file, env);
    if header.Err? {
      return Err(header.error);
    }
    var h := header.value;
    if !h.runs.JArr? {
      r := if h.runs.JObj? || h.runs.JStr? then Err(NoFrameData) else Err(Malformed);
      return;
    }
    var all, extra, total := GatherRuns(h.runs.items);
    if |all| + extra <= 1 {
      return Err(NoFrameData);
    }
    if extra > 0 {
      return Err(Malformed);
    }
    var fps := RatesOf(Sort(all));
    if fps == [] {
      return Err(NoFrameData);
    }
    var sorted := Sort(fps);
    r := Ok([Record(h.moment.date, TwoDigits(h.moment.hour), h.app, |all|, total,
                    Mean(fps), MinOf(fps), MaxOf(fps), sorted[|fps| / 100], sorted[|fps| / 1000])]);
  }

  /** A document with no Runs key, or an empty Runs list, fails with NoRuns. */
  lemma MissingRunsFail(fields: map<string, Json>, env: Env)
    requires "Runs" !in fields || fields["Runs"] == JArr([])
    ensures Decode(Some(JObj(fields)), env) == Err(NoRuns)
  {
  }

  /** Whatever Runs holds, a successful decode is the summary of a Runs list. */
  lemma DecodeOk(file: Option<Json>, env: Env)
    requires Decode(file, env).Ok?
    ensures ReadHeader(file, env).Ok? && ReadHeader(file, env).value.runs.JArr?
    ensures Decode(file, env) == Summarise(Gather(ReadHeader(file, env).value.runs.items), ReadHeader(file, env).value)
  {
  }

  /** Numeric timestamps give a row exactly when they are not all equal (two equal ones give no gap). */
  lemma SummariseOkIff(g: Gathered, h: Header)
    requires g.extra == 0
    ensures Summarise(g, h).Ok? <==> !AllEqual(g.values)
  {
    RatesEmptyIff(Sort(g.values));
    SortAllEqual(g.values);
  }

  /**
   * A summary is one row whose Frames counts every timestamp, whose TimeTaken
   * sums the runs' final timestamps, whose Date, Time and Application come
   * from the header, and whose five rates are the mean, minimum and maximum
   * of the frame rates and the entries `len // 100` and `len // 1000` of the
   * rates sorted (`int(len * 0.01)` and `int(len * 0.001)`).
   */
  lemma SummaryRow(g: Gathered, h: Header)
    requires Summarise(g, h).Ok?
    ensures |Summarise(g, h).value| == 1
    ensures var row := Summarise(g, h).value[0];
      && row.frames == |g.values|
      && row.timeTaken == g.total
      && row.app == h.app
      && row.date == h.moment.date
      && row.time == TwoDigits(h.moment.hour)
    ensures var fps := Rates(Sort(g.values));
      var row := Summarise(g, h).value[0];
      && fps != []
      && row.avg == Mean(fps) && row.minFps == MinOf(fps) && row.maxFps == MaxOf(fps)
      && row.low1 == Sort(fps)[|fps| / 100] && row.low01 == Sort(fps)[|fps| / 1000]
  {
  }

  /**
   * The lows are ranks of the frame rates: at most `len // 100` rates lie
   * below Low1Percent and more lie at or below it, and likewise
   * `len // 1000` for Low01Percent.
   */
  lemma SummaryLows(g: Gathered, h: Header)
    requires Summarise(g, h).Ok?
    ensures var fps := Rates(Sort(g.values));
      var row := Summarise(g, h).value[0];
      && Count(fps, row.low1, false) <= |fps| / 100 < Count(fps, row.low1, true)
      && Count(fps, row.low01, false) <= |fps| / 1000 < Count(fps, row.low01, true)
  {
    var fps := Rates(Sort(g.values));
    RankOfSorted(fps, |fps| / 100);
    RankOfSorted(fps, |fps| / 1000);
  }

  /** In a summarised row, 0 < Min <= Average <= Max and Min <= Low0.1% <= Low1% <= Max. */
  lemma SummaryBounds(g: Gathered, h: Header)
    requires Summarise(g, h).Ok?
    ensures var row := Summarise(g, h).value[0];
      && 0.0 < row.minFps <= row.avg <= row.maxFps
      && row.minFps <= row.low01 <= row.low1 <= row.maxFps
  {
    var fps := Rates(Sort(g.values));
    MeanBounds(fps);
    SortEnds(fps);
    var sorted := Sort(fps);
    assert |fps| / 1000 <= |fps| / 100 < |fps|;
    assert sorted[0] <= sorted[|fps| / 1000] <= sorted[|fps| / 100] <= sorted[|fps| - 1];
  }

  /** Application is ProcessName without ".exe", and "Unknown" when ProcessName is absent. */
  lemma ApplicationName(fields: map<string, Json>, env: Env)
    requires ReadHeader(Some(JObj(fields)), env).Ok?
    ensures var info := Get(fields, "Info", JObj(map[]));
      var app := ReadHeader(Some(JObj(fields)), env).value.app;
      && ("ProcessName" !in info.fields ==> app == "Unknown")
      && ("ProcessName" in info.fields && !Contains(info.fields["ProcessName"].s, ".exe") ==>
            app == info.fields["ProcessName"].s)
  {
    NotContainsFirst("Unknown", ".exe");
  }

  /** A ProcessName `n + ".exe"`, where `n` holds no other ".exe", gives Application `n`. */
  lemma ApplicationDropsExe(fields: map<string, Json>, env: Env, n: string)
    requires ReadHeader(Some(JObj(fields)), env).Ok?
    requires var info := Get(fields, "Info", JObj(map[]));
      info.JObj? && "ProcessName" in info.fields && info.fields["ProcessName"] == JStr(n + ".exe")
    requires !Contains(n, ".exe")
    ensures ReadHeader(Some(JObj(fields)), env).value.app == n
  {
    RemoveExeSuffix(n);
  }

  /** Two distinct timestamps, in either order, give the one rate 1 / (later - earlier). */
  lemma TwoTimestamps(a: real, b: real)
    requires a < b
    ensures Rates(Sort([a, b])) == [1.0 / (b - a)]
    ensures Rates(Sort([b, a])) == [1.0 / (b - a)]
  {
    SortPair(a, b);
    SortPair(b, a);
    assert [a, b][..1] == [a];
  }

  /** `can_parse`: braces after stripping, a decoded object with Hash, Info and a Runs list. */
  predicate CanParse(content: string, decoded: Option<Json>) {
    var t := Strip(content);
    && StartsWith(t, "{") && EndsWith(t, "}")
    && decoded.Some? && decoded.value.JObj?
    && "Hash" in decoded.value.fields
    && "Info" in decoded.value.fields
    && "Runs" in decoded.value.fields
    && decoded.value.fields["Runs"].JArr?
  }

  /**
   * `can_parse` is the detector's JSON probe plus "Runs is a list": a document
   * whose Runs is not a list is still detected as CapFrame, but refused here.
   */
  lemma CanParseVersusDetect(content: string, decoded: Option<Json>)
    ensures CanParse(content, decoded) <==>
      Registry.JsonProbe(content, decoded) && decoded.value.fields["Runs"].JArr?
    ensures Registry.JsonProbe(content, decoded) && !decoded.value.fields["Runs"].JArr? ==>
      !CanParse(content, decoded) && Registry.Detect(content, decoded) == Registry.CapFrame
  {
  }
}
